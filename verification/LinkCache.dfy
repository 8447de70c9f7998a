/** Short links and their cache: `LinkCacheService`, which keeps every link under its id and under its
    short code, and the writers in `ClickTrackingService` it has to follow. One scope is modelled. */
module LinkCache {
  import opened Prelude
  import opened BaseCache
  import opened CacheCoherence

  datatype Param = Param(key: string, value: string, isUtm: bool)

  /** The fields a redirect depends on, in the row and in its cached copies. */
  datatype Link = Link(
    id: Id, shortCode: string, originalUrl: string, isActive: bool, expiresAt: Option<int>, parameters: seq<Param>)

  const CFG: Config<Link, Link> := Config((l: Link) => l, (l: Link) => l.id, true)

  type Links = Store<Link, Link>

  /** The names of the short-code keys are those of the value keys of a scope called "code". */
  const CODES: Scope := "code"

  function IdKey(id: Id): Key { Key("", id) }

  function CodeKey(code: string): Key { Key(CODES, code) }

  predicate Has(rows: map<Id, Link>, id: Id, code: string) { id in rows && rows[id].shortCode == code }

  /** The unique index on short codes. */
  ghost predicate UniqueCodes(rows: map<Id, Link>) {
    forall i, j :: i in rows && j in rows && rows[i].shortCode == rows[j].shortCode ==> i == j
  }

  ghost function ByCode(rows: map<Id, Link>, code: string): (l: Option<Link>)
    ensures l.Some? ==> l.value.shortCode == code
    ensures l.Some? <==> exists id :: Has(rows, id, code)
  {
    if exists id :: Has(rows, id, code) then var id :| Has(rows, id, code); Some(rows[id]) else None
  }

  // ---------------------------------------------------------------- the cache

  /** Which calls of a lookup by code work: the Redis read, the row read, the Redis write, and the
      row read in the catch block. Unlike in `get`, a failing Redis call leads to the catch block. */
  datatype CodeCalls = CodeCalls(redisRead: bool, rowRead: bool, setex: Outcome, secondRead: bool)

  ghost function CodeAnswer(s: Links, code: string, calls: CodeCalls): Option<Option<Link>> {
    var k, row := CodeKey(code), ByCode(s.rows, code);
    if k in s.memory then Some(Some(s.memory[k]))
    else if calls.redisRead && k in s.redis then Some(Some(s.redis[k]))
    else if calls.redisRead && calls.rowRead && (row.None? || calls.setex == Ok) then Some(row)
    else if calls.secondRead then Some(row) else None
  }

  ghost function AfterByCode(s: Links, code: string, calls: CodeCalls): Links {
    var k, row := CodeKey(code), ByCode(s.rows, code);
    if k in s.memory then
      s.(stats := s.stats.(totalRequests := s.stats.totalRequests + 1, l2Hits := s.stats.l2Hits + 1))
    else
      var missed := s.stats.(totalRequests := s.stats.totalRequests + 1, l2Misses := s.stats.l2Misses + 1);
      if !calls.redisRead then s.(stats := missed)
      else if k in s.redis then
        s.(memory := s.memory[k := s.redis[k]], stats := missed.(l1Hits := missed.l1Hits + 1))
      else
        var below := missed.(l1Misses := missed.l1Misses + 1);
        if !calls.rowRead || row.None? then s.(stats := below)
        else
          CodeCached(s.(stats := below.(databaseHits := below.databaseHits + 1)), row.value, calls.setex)
  }

  /** `cacheShortCode`: throws unless its Redis write is acknowledged, and then skips the memory. */
  function CodeCached(s: Links, l: Link, setex: Outcome): Links {
    var k := CodeKey(l.shortCode);
    s.(redis := if setex == Failed then s.redis else s.redis[k := l],
       memory := if setex == Ok then s.memory[k := l] else s.memory)
  }

  /** `set`: the id view first, then the code view. */
  function AfterSetLink(s: Links, l: Link, put: SetCalls, setex: Outcome): Links {
    CodeCached(AfterSet(CFG, s, "", l, put), l, setex)
  }

  /** How `invalidate` goes: the lookup of the row, the deletes of the code key and of the counter,
      and the inherited part. */
  datatype DropCalls = DropCalls(rowRead: bool, delCode: Outcome, counter: bool, base: InvalidateCalls)

  function CodeDropped(s: Links, code: string, del: Outcome): Links {
    var k := CodeKey(code);
    s.(redis := if del == Failed then s.redis else s.redis - {k},
       memory := if del == Ok then s.memory - {k} else s.memory)
  }

  predicate CodeDropWorks(calls: DropCalls) { calls.delCode == Ok && calls.counter }

  /** The code view is dropped only if the row is still there to name its code. */
  function AfterDrop(s: Links, id: Id, calls: DropCalls): Links {
    if !calls.rowRead then s
    else if id in s.rows then
      var s' := CodeDropped(s, s.rows[id].shortCode, calls.delCode);
      if CodeDropWorks(calls) then AfterInvalidate(CFG, s', IdKey(id), calls.base) else s'
    else AfterInvalidate(CFG, s, IdKey(id), calls.base)
  }

  class LinkCacheService {
    const repository: Repository<Link>
    const base: BaseCacheService<Link, Link>

    constructor (repository: Repository<Link>)
      ensures this.repository == repository && Wired() && fresh(base)
    {
      this.repository := repository;
      this.base := new BaseCacheService(CFG, repository);
    }

    ghost predicate Wired() {
      base.repository == repository && base.cfg == CFG
    }

    function Value(): Links
      reads base, repository, base.repository
    {
      base.Value()
    }

    method RowByCode(code: string) returns (row: Option<Link>)
      requires UniqueCodes(repository.rows)
      ensures row == ByCode(repository.rows, code)
    {
      if id :| id in repository.rows && Has(repository.rows, id, code) {
        row := Some(repository.rows[id]);
      } else {
        row := None;
      }
    }

    method GetByShortCode(code: string, calls: CodeCalls) returns (answer: Option<Option<Link>>)
      requires Wired() && UniqueCodes(repository.rows)
      modifies base
      ensures answer == CodeAnswer(old(Value()), code, calls)
      ensures Value() == AfterByCode(old(Value()), code, calls)
    {
      var k := CodeKey(code);
      base.stats := base.stats.(totalRequests := base.stats.totalRequests + 1);
      if k in base.memory {
        base.stats := base.stats.(l2Hits := base.stats.l2Hits + 1);
        return Some(Some(base.memory[k]));
      }
      base.stats := base.stats.(l2Misses := base.stats.l2Misses + 1);
      if calls.redisRead {
        if k in base.redis {
          base.stats := base.stats.(l1Hits := base.stats.l1Hits + 1);
          base.memory := base.memory[k := base.redis[k]];
          return Some(Some(base.redis[k]));
        }
        base.stats := base.stats.(l1Misses := base.stats.l1Misses + 1);
        if calls.rowRead {
          var row := RowByCode(code);
          if row.None? { return Some(None); }
          base.stats := base.stats.(databaseHits := base.stats.databaseHits + 1);
          var cached := CacheShortCode(row.value, calls.setex);
          if cached { return Some(row); }
        }
      }
      if !calls.secondRead { return None; }
      var row := RowByCode(code);
      answer := Some(row);
    }

    method CacheShortCode(l: Link, setex: Outcome) returns (ok: bool)
      requires Wired()
      modifies base
      ensures ok == (setex == Ok)
      ensures Value() == CodeCached(old(Value()), l, setex)
    {
      var k := CodeKey(l.shortCode);
      if setex != Failed { base.redis := base.redis[k := l]; }
      if setex == Ok { base.memory := base.memory[k := l]; }
      ok := setex == Ok;
    }

    /** False when the caller sees an exception. */
    method SetLink(l: Link, put: SetCalls, setex: Outcome) returns (ok: bool)
      requires Wired()
      modifies base
      ensures ok == (setex == Ok)
      ensures Value() == AfterSetLink(old(Value()), l, put, setex)
    {
      base.Put("", l, put);
      ok := CacheShortCode(l, setex);
    }

    method InvalidateShortCode(code: string, calls: DropCalls) returns (ok: bool)
      requires Wired()
      modifies base
      ensures ok == CodeDropWorks(calls)
      ensures Value() == CodeDropped(old(Value()), code, calls.delCode)
    {
      var k := CodeKey(code);
      if calls.delCode == Failed { return false; }
      base.redis := base.redis - {k};
      if calls.delCode == AckLost { return false; }
      base.memory := base.memory - {k};
      ok := calls.counter;
    }

    method Invalidate(id: Id, calls: DropCalls) returns (ok: bool)
      requires Wired()
      modifies base
      ensures ok == (calls.rowRead && calls.base.del == Ok && (id in old(Value()).rows ==> CodeDropWorks(calls)))
      ensures Value() == AfterDrop(old(Value()), id, calls)
    {
      if !calls.rowRead { return false; }
      if id in repository.rows {
        var dropped := InvalidateShortCode(repository.rows[id].shortCode, calls);
        if !dropped { return false; }
      }
      ok := base.Invalidate("", id, calls.base);
    }
  }

  // ---------------------------------------------------------------- the writers

  /** `expiresAt` may be left alone, cleared or set. */
  datatype Patch = Patch(
    originalUrl: Option<string>, isActive: Option<bool>, expiresAt: Option<Option<int>>, parameters: Option<seq<Param>>)

  /** The entity after its fields have been assigned. */
  function Patched(l: Link, p: Patch): Link {
    l.(originalUrl := if p.originalUrl.Some? then p.originalUrl.value else l.originalUrl,
       isActive := if p.isActive.Some? then p.isActive.value else l.isActive,
       expiresAt := if p.expiresAt.Some? then p.expiresAt.value else l.expiresAt,
       parameters := if p.parameters.Some? then p.parameters.value else l.parameters)
  }

  /** Saving writes the link's own columns and skips those that are undefined: an expiry that was
      cleared stays in the row. The parameters have their own table. */
  function SavedRow(rows: map<Id, Link>, l: Link): Link {
    if l.id !in rows then l
    else
      rows[l.id].(originalUrl := l.originalUrl, isActive := l.isActive,
                  expiresAt := if l.expiresAt.Some? then l.expiresAt else rows[l.id].expiresAt)
  }

  function WithParameters(rows: map<Id, Link>, id: Id, ps: seq<Param>): map<Id, Link> {
    if id in rows then rows[id := rows[id].(parameters := ps)] else rows
  }

  datatype TableCalls = TableCalls(delParams: Outcome, saveParams: Outcome, save: Outcome)

  /** The table writes of an update: the parameters are deleted, then written, then the link is saved.
      The flag says whether all of them were acknowledged. */
  function UpdatedRows(rows: map<Id, Link>, l: Link, p: Patch, calls: TableCalls): (map<Id, Link>, bool) {
    var l' := Patched(l, p);
    if p.parameters.None? then SavedRows(rows, l', calls.save)
    else if calls.delParams == Failed then (rows, false)
    else
      var emptied := WithParameters(rows, l.id, []);
      if calls.delParams == AckLost || SaveParamsFails(rows, l, p, calls) then (emptied, false)
      else
        var filled := WithParameters(rows, l.id, p.parameters.value);
        if calls.saveParams == AckLost then (filled, false) else SavedRows(filled, l', calls.save)
  }

  /** Parameters of a link that has no row break their foreign key. */
  predicate SaveParamsFails(rows: map<Id, Link>, l: Link, p: Patch, calls: TableCalls)
    requires p.parameters.Some?
  {
    calls.saveParams == Failed || (l.id !in rows && p.parameters.value != [])
  }

  function SavedRows(rows: map<Id, Link>, l: Link, save: Outcome): (map<Id, Link>, bool) {
    if save == Failed then (rows, false) else (rows[l.id := SavedRow(rows, l)], save == Ok)
  }

  /** `listener` is the invalidation that the emitted event causes. */
  datatype Calls = Calls(get: GetCalls, rowRead: bool, table: TableCalls, drop: DropCalls, listener: DropCalls)

  datatype Found = Here(link: Link) | NotFound | Thrown

  /** `findById`. */
  function Lookup(s: Links, id: Id, calls: Calls): Found {
    match GetAnswer(CFG, s, IdKey(id), calls.get)
    case None => Thrown
    case Some(Some(l)) => Here(l)
    case Some(None) => if calls.rowRead then NotFound else Thrown
  }

  predicate DropWorks(s: Links, id: Id, calls: DropCalls) {
    calls.rowRead && calls.base.del == Ok && (id in s.rows ==> CodeDropWorks(calls))
  }

  function AfterDropAndEvent(s: Links, id: Id, calls: Calls): Links {
    var s' := AfterDrop(s, id, calls.drop);
    if DropWorks(s, id, calls.drop) then AfterDrop(s', id, calls.listener) else s'
  }

  datatype CreateCalls = CreateCalls(save: Outcome, saveParams: Outcome, put: SetCalls, setex: Outcome, clear: ClearCalls)

  datatype Request =
    | Create(link: Link, custom: bool, create: CreateCalls)
    | Update(id: Id, patch: Patch, calls: Calls)
    | Delete(id: Id, remove: Outcome, calls: Calls)
    | FindById(id: Id, calls: Calls)
    | FindByCode(code: string, byCode: CodeCalls)
    | ValuesExpire(redisKeys: set<Key>, memoryKeys: set<Key>)

  predicate Taken(rows: map<Id, Link>, code: string) { exists id :: id in rows && Has(rows, id, code) }

  /** The table writes of a creation: the link, then its parameters, if it has any. */
  function CreatedRows(rows: map<Id, Link>, l: Link, calls: CreateCalls): (map<Id, Link>, bool) {
    if calls.save == Failed || Taken(rows, l.shortCode) then (rows, false)
    else if calls.save == AckLost || (l.parameters != [] && calls.saveParams == Failed)
    then (rows[l.id := l.(parameters := [])], false)
    else (rows[l.id := l], l.parameters == [] || calls.saveParams == Ok)
  }

  /** Both views, unless the link has a custom domain, then the listener that invalidates everything
      the index lists. */
  function AfterCaching(s: Links, l: Link, custom: bool, calls: CreateCalls): Links {
    if custom then AfterClear(CFG, s, "", calls.clear)
    else
      var cached := AfterSetLink(s, l, calls.put, calls.setex);
      if calls.setex == Ok then AfterClear(CFG, cached, "", calls.clear) else cached
  }

  function AfterCreate(s: Links, l: Link, custom: bool, calls: CreateCalls): Links {
    var (rows, reached) := CreatedRows(s.rows, l, calls);
    var s' := s.(rows := rows);
    if reached then AfterCaching(s', l, custom, calls) else s'
  }

  function AfterUpdate(s: Links, id: Id, patch: Patch, calls: Calls): Links {
    var f, s1 := Lookup(s, id, calls), AfterGet(CFG, s, IdKey(id), calls.get);
    if !f.Here? then s1
    else
      var (rows, reached) := UpdatedRows(s1.rows, f.link, patch, calls.table);
      var s2 := s1.(rows := rows);
      if reached then AfterDropAndEvent(s2, id, calls) else s2
  }

  function AfterDelete(s: Links, id: Id, remove: Outcome, calls: Calls): Links {
    var f, s1 := Lookup(s, id, calls), AfterGet(CFG, s, IdKey(id), calls.get);
    if !f.Here? || remove == Failed then s1
    else
      var s2 := s1.(rows := s1.rows - {id});
      if remove == Ok then AfterDropAndEvent(s2, id, calls) else s2
  }

  ghost function After(s: Links, r: Request): Links {
    match r
    case Create(l, custom, calls) => AfterCreate(s, l, custom, calls)
    case Update(id, patch, calls) => AfterUpdate(s, id, patch, calls)
    case Delete(id, remove, calls) => AfterDelete(s, id, remove, calls)
    case FindById(id, calls) => AfterGet(CFG, s, IdKey(id), calls.get)
    case FindByCode(code, calls) => AfterByCode(s, code, calls)
    case ValuesExpire(redisKeys, memoryKeys) =>
      s.(redis := s.redis - redisKeys, memory := s.memory - memoryKeys)
  }

  class ClickTrackingService {
    const repository: Repository<Link>
    const cache: LinkCacheService

    constructor (repository: Repository<Link>)
      ensures this.repository == repository && Wired() && fresh(cache) && fresh(cache.base)
    {
      this.repository := repository;
      this.cache := new LinkCacheService(repository);
    }

    ghost predicate Wired() {
      cache.repository == repository && cache.Wired()
    }

    function Value(): Links
      reads cache.base, repository, cache.base.repository
    {
      cache.base.Value()
    }

    method FindById(id: Id, calls: Calls) returns (found: Found)
      requires Wired()
      modifies cache.base
      ensures found == Lookup(old(Value()), id, calls)
      ensures Value() == AfterGet(CFG, old(Value()), IdKey(id), calls.get)
    {
      var cached := cache.base.Get("", id, calls.get);
      match cached
      case None => found := Thrown;
      case Some(Some(l)) => found := Here(l);
      case Some(None) => found := if calls.rowRead then NotFound else Thrown;
    }

    /** False when the caller sees an exception. */
    method Create(l: Link, custom: bool, calls: CreateCalls) returns (ok: bool)
      requires Wired()
      modifies cache.base, repository
      ensures Value() == AfterCreate(old(Value()), l, custom, calls)
      ensures ok == (calls.save == Ok && !Taken(old(Value()).rows, l.shortCode)
                     && (l.parameters == [] || calls.saveParams == Ok) && (custom || calls.setex == Ok))
    {
      var reached := InsertRows(l, calls);
      if !reached { return false; }
      ok := CacheNew(l, custom, calls);
    }

    method InsertRows(l: Link, calls: CreateCalls) returns (reached: bool)
      modifies repository
      ensures (repository.rows, reached) == CreatedRows(old(repository.rows), l, calls)
    {
      if calls.save == Failed || Taken(repository.rows, l.shortCode) { return false; }
      repository.rows := repository.rows[l.id := l.(parameters := [])];
      if calls.save == AckLost { return false; }
      if |l.parameters| > 0 {
        if calls.saveParams == Failed { return false; }
        repository.rows := repository.rows[l.id := l];
        assert repository.rows == old(repository.rows)[l.id := l];
        if calls.saveParams == AckLost { return false; }
      } else {
        assert l.(parameters := []) == l;
      }
      reached := true;
    }

    method CacheNew(l: Link, custom: bool, calls: CreateCalls) returns (ok: bool)
      requires Wired()
      modifies cache.base
      ensures ok == (custom || calls.setex == Ok)
      ensures Value() == AfterCaching(old(Value()), l, custom, calls)
    {
      if !custom {
        var cached := cache.SetLink(l, calls.put, calls.setex);
        if !cached { return false; }
      }
      var _ := cache.base.InvalidateAll("", calls.clear);
      ok := true;
    }

    method Update(id: Id, patch: Patch, calls: Calls) returns (found: Found)
      requires Wired()
      modifies cache.base, repository
      ensures Value() == AfterUpdate(old(Value()), id, patch, calls)
      ensures found.Here? <==>
                && Lookup(old(Value()), id, calls).Here?
                && UpdatedRows(old(Value()).rows, Lookup(old(Value()), id, calls).link, patch, calls.table).1
                && DropWorks(Value(), id, calls.drop)
      ensures found.Here? ==>
                var f := Lookup(old(Value()), id, calls);
                && f.Here? && found.link.id == f.link.id && found.link.shortCode == f.link.shortCode
                && found.link.originalUrl == (if patch.originalUrl.Some? then patch.originalUrl.value else f.link.originalUrl)
                && found.link.isActive == (if patch.isActive.Some? then patch.isActive.value else f.link.isActive)
                && found.link.expiresAt == (if patch.expiresAt.Some? then patch.expiresAt.value else f.link.expiresAt)
                && found.link.parameters == (if patch.parameters.Some? then patch.parameters.value else f.link.parameters)
      ensures found.NotFound? <==> Lookup(old(Value()), id, calls).NotFound?
    {
      found := FindById(id, calls);
      if !found.Here? { return; }
      var link := found.link;
      if patch.originalUrl.Some? { link := link.(originalUrl := patch.originalUrl.value); }
      if patch.isActive.Some? { link := link.(isActive := patch.isActive.value); }
      if patch.expiresAt.Some? { link := link.(expiresAt := patch.expiresAt.value); }
      if patch.parameters.Some? { link := link.(parameters := patch.parameters.value); }
      var reached := WriteRows(found.link, link, patch, calls.table);
      if !reached { return Thrown; }
      var dropped := DropAndEmit(id, calls);
      found := if dropped then Here(link) else Thrown;
    }

    method WriteRows(before: Link, link: Link, patch: Patch, calls: TableCalls) returns (reached: bool)
      requires link == Patched(before, patch)
      modifies repository
      ensures (repository.rows, reached) == UpdatedRows(old(repository.rows), before, patch, calls)
    {
      if patch.parameters.Some? {
        if calls.delParams == Failed { return false; }
        repository.rows := WithParameters(repository.rows, link.id, []);
        if calls.delParams == AckLost { return false; }
        if SaveParamsFails(repository.rows, link, patch, calls) { return false; }
        repository.rows := WithParameters(repository.rows, link.id, patch.parameters.value);
        assert repository.rows == WithParameters(old(repository.rows), link.id, patch.parameters.value);
        if calls.saveParams == AckLost { return false; }
      }
      if calls.save == Failed { return false; }
      repository.rows := repository.rows[link.id := SavedRow(repository.rows, link)];
      reached := calls.save == Ok;
    }

    method DropAndEmit(id: Id, calls: Calls) returns (ok: bool)
      requires Wired()
      modifies cache.base
      ensures ok == DropWorks(old(Value()), id, calls.drop)
      ensures Value() == AfterDropAndEvent(old(Value()), id, calls)
    {
      ok := cache.Invalidate(id, calls.drop);
      if ok { var _ := cache.Invalidate(id, calls.listener); }
    }

    method Delete(id: Id, remove: Outcome, calls: Calls) returns (found: Found)
      requires Wired()
      modifies cache.base, repository
      ensures Value() == AfterDelete(old(Value()), id, remove, calls)
      ensures found.Here? <==>
                Lookup(old(Value()), id, calls).Here? && remove == Ok && calls.drop.rowRead && calls.drop.base.del == Ok
      ensures found.Here? || found.NotFound? ==> found == Lookup(old(Value()), id, calls)
      ensures found.NotFound? <==> Lookup(old(Value()), id, calls).NotFound?
    {
      found := FindById(id, calls);
      if !found.Here? { return; }
      if remove == Failed { return Thrown; }
      repository.rows := repository.rows - {id};
      if remove == AckLost { return Thrown; }
      var dropped := DropAndEmit(id, calls);
      if !dropped { found := Thrown; }
    }
  }

  // ---------------------------------------------------------------- the two views

  ghost predicate FreshCodes(layer: map<Key, Link>, rows: map<Id, Link>) {
    forall k :: k in layer && k.scope == CODES ==> ByCode(rows, k.id) == Some(layer[k])
  }

  /** Both views of the cache show the rows. */
  ghost predicate Inv(s: Links) {
    && Coherent(CFG, s, "") && FreshCodes(s.redis, s.rows) && FreshCodes(s.memory, s.rows)
    && Keyed(CFG, s.rows) && UniqueCodes(s.rows)
  }

  lemma ByCodeIs(rows: map<Id, Link>, id: Id)
    requires UniqueCodes(rows) && id in rows
    ensures ByCode(rows, rows[id].shortCode) == Some(rows[id])
  {
    assert Has(rows, id, rows[id].shortCode);
  }

  lemma Layers(s: Links)
    ensures Inv(s) <==>
              && Fresh(CFG, s.redis, s.rows, "") && Fresh(CFG, s.memory, s.rows, "")
              && FreshCodes(s.redis, s.rows) && FreshCodes(s.memory, s.rows)
              && Keyed(CFG, s.rows) && UniqueCodes(s.rows)
  {
  }

  /** Base operations of the shared namespace leave the code view alone. */
  lemma CodesUntouched(s: Links, s': Links)
    requires SameFor(s, s', CODES) && s'.rows == s.rows
    ensures FreshCodes(s.redis, s.rows) ==> FreshCodes(s'.redis, s'.rows)
    ensures FreshCodes(s.memory, s.rows) ==> FreshCodes(s'.memory, s'.rows)
  {
  }

  lemma GetKeeps(s: Links, id: Id, calls: GetCalls)
    requires Inv(s)
    ensures Inv(AfterGet(CFG, s, IdKey(id), calls))
  {
    StepKeepsCoherence(CFG, s, Call("", Get(id, calls)), "");
    GetElsewhere(CFG, s, IdKey(id), calls, CODES);
    CodesUntouched(s, AfterGet(CFG, s, IdKey(id), calls));
  }

  lemma CodeCachedKeeps(s: Links, l: Link, setex: Outcome)
    requires Inv(s) && ByCode(s.rows, l.shortCode) == Some(l)
    ensures Inv(CodeCached(s, l, setex))
  {
    Layers(s);
    Layers(CodeCached(s, l, setex));
  }

  lemma ByCodeKeeps(s: Links, code: string, calls: CodeCalls)
    requires Inv(s)
    ensures Inv(AfterByCode(s, code, calls))
  {
    var row := ByCode(s.rows, code);
    if CodeKey(code) !in s.memory && calls.redisRead && CodeKey(code) !in s.redis && calls.rowRead && row.Some? {
      var missed := s.stats.(totalRequests := s.stats.totalRequests + 1, l2Misses := s.stats.l2Misses + 1);
      var below := missed.(l1Misses := missed.l1Misses + 1);
      var s' := s.(stats := below.(databaseHits := below.databaseHits + 1));
      assert Inv(s');
      CodeCachedKeeps(s', row.value, calls.setex);
    }
  }

  lemma ClearKeeps(s: Links, calls: ClearCalls)
    requires Inv(s)
    ensures Inv(AfterClear(CFG, s, "", calls))
  {
    StepKeepsCoherence(CFG, s, Call("", Clear(calls)), "");
    ClearElsewhere(CFG, s, "", calls, CODES);
    CodesUntouched(s, AfterClear(CFG, s, "", calls));
  }

  lemma SetLinkKeeps(s: Links, l: Link, put: SetCalls, setex: Outcome)
    requires Inv(s) && l.id in s.rows && s.rows[l.id] == l && IdKey(l.id) !in s.redis
    ensures Inv(AfterSetLink(s, l, put, setex))
  {
    var m := AfterSet(CFG, s, "", l, put);
    assert s.rows[l.id := l] == s.rows;
    SaveKeepsCoherenceIff(CFG, s, "", l, put);
    SaveElsewhere(CFG, s, "", l, put, CODES);
    CodesUntouched(s, m);
    ByCodeIs(s.rows, l.id);
    CodeCachedKeeps(m, l, setex);
  }

  /** A row nobody has cached may appear. */
  lemma NewRowKeeps(s: Links, l: Link)
    requires Inv(s) && l.id !in s.rows && !Taken(s.rows, l.shortCode)
    ensures Inv(s.(rows := s.rows[l.id := l]))
    ensures IdKey(l.id) !in s.redis
  {
    var rows := s.rows[l.id := l];
    assert forall k :: k in s.redis && k.scope == "" ==> View(CFG, s.rows, k.id).Some?;
    forall i, j | i in rows && j in rows && rows[i].shortCode == rows[j].shortCode ensures i == j {
      assert i in s.rows ==> Has(s.rows, i, rows[i].shortCode);
      assert j in s.rows ==> Has(s.rows, j, rows[j].shortCode);
    }
    forall code | ByCode(s.rows, code).Some? ensures ByCode(rows, code) == ByCode(s.rows, code) {
      var id :| Has(s.rows, id, code);
      ByCodeIs(s.rows, id);
      ByCodeIs(rows, id);
    }
    forall id | id in s.rows ensures View(CFG, rows, id) == View(CFG, s.rows, id) {}
    forall k | k in s.redis && k.scope == "" ensures View(CFG, rows, k.id) == Some(s.redis[k]) {
      assert View(CFG, s.rows, k.id) == Some(s.redis[k]);
    }
    forall k | k in s.memory && k.scope == "" ensures View(CFG, rows, k.id) == Some(s.memory[k]) {
      assert View(CFG, s.rows, k.id) == Some(s.memory[k]);
    }
  }

  lemma CreateKeeps(s: Links, l: Link, custom: bool, calls: CreateCalls)
    requires Inv(s) && l.id !in s.rows
    ensures Inv(AfterCreate(s, l, custom, calls))
  {
    var (rows, reached) := CreatedRows(s.rows, l, calls);
    if !Taken(s.rows, l.shortCode) {
      NewRowKeeps(s, l);
      NewRowKeeps(s, l.(parameters := []));
      var s' := s.(rows := rows);
      if reached {
        if !custom { SetLinkKeeps(s', l, calls.put, calls.setex); }
        ClearKeeps(if custom then s' else AfterSetLink(s', l, calls.put, calls.setex), calls.clear);
      }
    }
  }

  // ---------------------------------------------------------------- updates

  /** The cached copies of a link, in both views and both layers, show `l`, where they exist. */
  predicate CopiesShow(s: Links, l: Link) {
    && (IdKey(l.id) in s.redis ==> s.redis[IdKey(l.id)] == l)
    && (IdKey(l.id) in s.memory ==> s.memory[IdKey(l.id)] == l)
    && (CodeKey(l.shortCode) in s.redis ==> s.redis[CodeKey(l.shortCode)] == l)
    && (CodeKey(l.shortCode) in s.memory ==> s.memory[CodeKey(l.shortCode)] == l)
  }

  /** Everything but the copies of one link shows its row. */
  ghost predicate InvBut(s: Links, l: Link) {
    && Keyed(CFG, s.rows) && UniqueCodes(s.rows) && l.id in s.rows && s.rows[l.id] == l
    && (forall k :: k in s.redis && k.scope == "" && k.id != l.id ==> View(CFG, s.rows, k.id) == Some(s.redis[k]))
    && (forall k :: k in s.memory && k.scope == "" && k.id != l.id ==> View(CFG, s.rows, k.id) == Some(s.memory[k]))
    && (forall k :: k in s.redis && k.scope == CODES && k.id != l.shortCode ==> ByCode(s.rows, k.id) == Some(s.redis[k]))
    && (forall k :: k in s.memory && k.scope == CODES && k.id != l.shortCode ==> ByCode(s.rows, k.id) == Some(s.memory[k]))
  }

  lemma CopiesDecide(s: Links, l: Link)
    requires InvBut(s, l)
    ensures Inv(s) <==> CopiesShow(s, l)
  {
    ByCodeIs(s.rows, l.id);
    assert View(CFG, s.rows, l.id) == Some(l);
    Layers(s);
    if Inv(s) {
      assert IdKey(l.id) in s.redis ==> View(CFG, s.rows, IdKey(l.id).id) == Some(s.redis[IdKey(l.id)]);
      assert IdKey(l.id) in s.memory ==> View(CFG, s.rows, IdKey(l.id).id) == Some(s.memory[IdKey(l.id)]);
      assert CodeKey(l.shortCode) in s.redis ==> ByCode(s.rows, CodeKey(l.shortCode).id) == Some(s.redis[CodeKey(l.shortCode)]);
      assert CodeKey(l.shortCode) in s.memory ==> ByCode(s.rows, CodeKey(l.shortCode).id) == Some(s.memory[CodeKey(l.shortCode)]);
    }
  }

  /** Changing a row without its id and code affects only its own copies. */
  lemma RowChange(s: Links, l: Link)
    requires Inv(s) && l.id in s.rows && s.rows[l.id].shortCode == l.shortCode
    ensures InvBut(s.(rows := s.rows[l.id := l]), l)
  {
    var rows := s.rows[l.id := l];
    forall code | code != l.shortCode && ByCode(s.rows, code).Some? ensures ByCode(rows, code) == ByCode(s.rows, code) {
      var id :| Has(s.rows, id, code);
      ByCodeIs(s.rows, id);
      ByCodeIs(rows, id);
    }
    assert forall k: Key :: k.id != l.id ==> View(CFG, rows, k.id) == View(CFG, s.rows, k.id);
  }

  /** An invalidation that goes through drops all four copies, even if its index write is lost. */
  lemma DropRestores(s: Links, l: Link, calls: DropCalls)
    requires InvBut(s, l) && DropWorks(s, l.id, calls)
    ensures Inv(AfterDrop(s, l.id, calls))
  {
    var s' := AfterDrop(s, l.id, calls);
    assert s'.redis == s.redis - {CodeKey(l.shortCode)} - {IdKey(l.id)};
    assert s'.memory == s.memory - {CodeKey(l.shortCode)} - {IdKey(l.id)};
    Layers(s');
  }

  ghost predicate Shrunk(s: Links, s': Links) {
    && s'.rows == s.rows
    && (forall k :: k in s'.redis ==> k in s.redis && s'.redis[k] == s.redis[k])
    && (forall k :: k in s'.memory ==> k in s.memory && s'.memory[k] == s.memory[k])
  }

  lemma ShrinkingKeeps(s: Links, s': Links)
    requires Inv(s) && Shrunk(s, s')
    ensures Inv(s')
  {
    Layers(s);
    Layers(s');
  }

  /** One that fails on the way has only deleted. */
  lemma DropKeeps(s: Links, id: Id, calls: DropCalls)
    requires Inv(s)
    ensures Inv(AfterDrop(s, id, calls))
  {
    DropShrinks(s, id, calls);
    ShrinkingKeeps(s, AfterDrop(s, id, calls));
  }

  lemma InvalidationShrinks(s: Links, id: Id, calls: InvalidateCalls)
    ensures Shrunk(s, AfterInvalidate(CFG, s, IdKey(id), calls))
  {
  }

  lemma LookupKeeps(s: Links, id: Id, calls: Calls)
    requires Inv(s)
    ensures Inv(AfterGet(CFG, s, IdKey(id), calls.get))
    ensures AfterGet(CFG, s, IdKey(id), calls.get).rows == s.rows
    ensures var f := Lookup(s, id, calls); f.Here? ==> id in s.rows && f.link == s.rows[id] && f.link.id == id
  {
    GetKeeps(s, id, calls.get);
    GetIsTransparent(CFG, s, "", id, calls.get);
  }

  /** What an update leaves in the row, wherever its table writes end. A save that arrives writes the
      named fields, except that an expiry cannot be cleared; named parameters are emptied before they are
      filled, so a failure in between loses them. */
  lemma UpdateWritesThePatch(rows: map<Id, Link>, id: Id, p: Patch, calls: TableCalls)
    requires id in rows && rows[id].id == id
    ensures var (after, reached) := UpdatedRows(rows, rows[id], p, calls);
            var emptied := p.parameters.Some? && calls.delParams != Failed;
            var filled := p.parameters.Some? && calls.delParams == Ok && calls.saveParams != Failed;
            var saves := p.parameters.None? || (calls.delParams == Ok && calls.saveParams == Ok);
            var saved := saves && calls.save != Failed;
            && id in after && after == rows[id := after[id]]
            && after[id].id == id && after[id].shortCode == rows[id].shortCode
            && after[id].originalUrl == (if saved && p.originalUrl.Some? then p.originalUrl.value else rows[id].originalUrl)
            && after[id].isActive == (if saved && p.isActive.Some? then p.isActive.value else rows[id].isActive)
            && after[id].expiresAt == (if saved && p.expiresAt.Some? && p.expiresAt.value.Some? then p.expiresAt.value
                                       else rows[id].expiresAt)
            && after[id].parameters == (if filled then p.parameters.value else if emptied then [] else rows[id].parameters)
            && (reached <==> saves && calls.save == Ok)
  {
  }

  /** An update whose table writes and invalidation go through keeps both views right; whatever
      becomes of the listener's own invalidation. */
  lemma UpdateKeeps(s: Links, id: Id, patch: Patch, calls: Calls)
    requires Inv(s)
    requires Lookup(s, id, calls).Here? ==>
               UpdatedRows(s.rows, s.rows[id], patch, calls.table).1 && DropWorks(s, id, calls.drop)
    ensures Inv(AfterUpdate(s, id, patch, calls))
  {
    LookupKeeps(s, id, calls);
    if Lookup(s, id, calls).Here? {
      var s1 := AfterGet(CFG, s, IdKey(id), calls.get);
      UpdateWritesThePatch(s.rows, id, patch, calls.table);
      var rows := UpdatedRows(s.rows, s.rows[id], patch, calls.table).0;
      RowChange(s1, rows[id]);
      var s2 := s1.(rows := rows);
      DropRestores(s2, rows[id], calls.drop);
      DropKeeps(AfterDrop(s2, id, calls.drop), id, calls.listener);
    }
  }

  lemma ShrinkingKeepsBut(s: Links, s': Links, l: Link)
    requires InvBut(s, l) && Shrunk(s, s')
    ensures InvBut(s', l)
  {
  }

  lemma DropShrinks(s: Links, id: Id, calls: DropCalls)
    ensures Shrunk(s, AfterDrop(s, id, calls))
  {
    var m := if id in s.rows then CodeDropped(s, s.rows[id].shortCode, calls.delCode) else s;
    assert Shrunk(s, m);
    InvalidationShrinks(m, id, calls.base);
  }

  lemma CopiesShowTheRow(s: Links, id: Id)
    requires Inv(s) && id in s.rows
    ensures CopiesShow(s, s.rows[id])
  {
    var l := s.rows[id];
    assert InvBut(s, l) by { assert s.rows[id := l] == s.rows; RowChange(s, l); assert s.(rows := s.rows) == s; }
    CopiesDecide(s, l);
  }

  /** No copy of the link is cached, in either view or layer. */
  predicate NotCached(s: Links, l: Link) {
    && IdKey(l.id) !in s.redis && IdKey(l.id) !in s.memory
    && CodeKey(l.shortCode) !in s.redis && CodeKey(l.shortCode) !in s.memory
  }

  /** What the lookup that opens an update leaves: the link in memory, unless it came from the catch
      block; and there memory held no copy under the id. */
  lemma LookupCaches(s: Links, id: Id, calls: GetCalls)
    requires Inv(s) && id in s.rows
    ensures var s1 := AfterGet(CFG, s, IdKey(id), calls);
            if OriginOf(CFG, s, IdKey(id), calls) == Unreadable
            then s1.redis == s.redis && s1.memory == s.memory && IdKey(id) !in s.memory
            else IdKey(id) in s1.memory
  {
  }

  /** A changed row and copies of what it was: they show it only if there are none. */
  lemma ChangedRowIsShownIff(s: Links, s': Links, id: Id)
    requires Inv(s) && id in s.rows && id in s'.rows && InvBut(s', s'.rows[id])
    requires s'.rows[id].id == id && s'.rows[id].shortCode == s.rows[id].shortCode
    requires forall k :: k in s'.redis ==> k in s.redis && s'.redis[k] == s.redis[k]
    requires forall k :: k in s'.memory ==> k in s.memory && s'.memory[k] == s.memory[k]
    ensures Inv(s') <==> s'.rows[id] == s.rows[id] || NotCached(s', s'.rows[id])
  {
    CopiesShowTheRow(s, id);
    CopiesDecide(s', s'.rows[id]);
  }

  /** An update that throws in the table, perhaps between deleting the parameters and saving the link,
      skips the invalidation. The views then stay right exactly if the rows are what they were, or the
      lookup that opens the update went to the catch block and nothing of the link was cached: any
      other lookup has just put the old link into memory. */
  lemma BrokenUpdateKeepsIff(s: Links, id: Id, patch: Patch, calls: Calls)
    requires Inv(s) && Lookup(s, id, calls).Here?
    requires !UpdatedRows(s.rows, s.rows[id], patch, calls.table).1
    ensures Inv(AfterUpdate(s, id, patch, calls)) <==>
              || UpdatedRows(s.rows, s.rows[id], patch, calls.table).0 == s.rows
              || (OriginOf(CFG, s, IdKey(id), calls.get) == Unreadable && NotCached(s, s.rows[id]))
  {
    LookupKeeps(s, id, calls);
    LookupCaches(s, id, calls.get);
    var s1 := AfterGet(CFG, s, IdKey(id), calls.get);
    UpdateWritesThePatch(s.rows, id, patch, calls.table);
    var rows := UpdatedRows(s.rows, s.rows[id], patch, calls.table).0;
    RowChange(s1, rows[id]);
    ChangedRowIsShownIff(s1, s1.(rows := rows), id);
    assert rows[id] == s.rows[id] <==> rows == s.rows;
  }

  /** A cached copy of the link outlives an invalidation that breaks off. */
  predicate Outlives(s: Links, l: Link, calls: DropCalls) {
    var code := calls.rowRead && calls.delCode == Ok;
    || (IdKey(l.id) in s.redis && !(calls.rowRead && CodeDropWorks(calls) && calls.base.del != Failed))
    || (CodeKey(l.shortCode) in s.redis && !(calls.rowRead && calls.delCode != Failed))
    || (CodeKey(l.shortCode) in s.memory && !code)
  }

  /** An update whose table writes arrive and whose invalidation breaks off on its way. Unless the
      lookup went to the catch block, a copy in memory always outlives it, so the views stay right
      exactly if the update changed nothing; otherwise also if no copy outlives it. */
  lemma InterruptedUpdateKeepsIff(s: Links, id: Id, patch: Patch, calls: Calls)
    requires Inv(s) && Lookup(s, id, calls).Here?
    requires UpdatedRows(s.rows, s.rows[id], patch, calls.table).1 && !DropWorks(s, id, calls.drop)
    ensures Inv(AfterUpdate(s, id, patch, calls)) <==>
              || UpdatedRows(s.rows, s.rows[id], patch, calls.table).0 == s.rows
              || (OriginOf(CFG, s, IdKey(id), calls.get) == Unreadable && !Outlives(s, s.rows[id], calls.drop))
  {
    LookupKeeps(s, id, calls);
    LookupCaches(s, id, calls.get);
    var s1 := AfterGet(CFG, s, IdKey(id), calls.get);
    UpdateWritesThePatch(s.rows, id, patch, calls.table);
    var rows := UpdatedRows(s.rows, s.rows[id], patch, calls.table).0;
    var s2 := s1.(rows := rows);
    DroppedChangeIsShownIff(s1, rows[id], calls.drop);
    BrokenOffDrop(s2, id, calls.drop);
    assert rows[id] == s.rows[id] <==> rows == s.rows;
  }

  /** A row changed under its copies, and an invalidation that may break off. */
  lemma DroppedChangeIsShownIff(s: Links, l: Link, calls: DropCalls)
    requires Inv(s) && l.id in s.rows && s.rows[l.id].id == l.id && s.rows[l.id].shortCode == l.shortCode
    ensures var s' := AfterDrop(s.(rows := s.rows[l.id := l]), l.id, calls);
            Inv(s') <==> l == s.rows[l.id] || NotCached(s', l)
  {
    var s2 := s.(rows := s.rows[l.id := l]);
    var s' := AfterDrop(s2, l.id, calls);
    RowChange(s, l);
    DropShrinks(s2, l.id, calls);
    ShrinkingKeepsBut(s2, s', l);
    ChangedRowIsShownIff(s, s', l.id);
  }

  /** What an invalidation that breaks off leaves of one link's copies. */
  lemma BrokenOffDrop(s: Links, id: Id, calls: DropCalls)
    requires id in s.rows && s.rows[id].id == id && !DropWorks(s, id, calls)
    ensures var s', l := AfterDrop(s, id, calls), s.rows[id];
            && (IdKey(id) in s.memory ==> IdKey(id) in s'.memory)
            && (IdKey(id) !in s.memory ==> (NotCached(s', l) <==> !Outlives(s, l, calls)))
  {
  }

  // ---------------------------------------------------------------- deletes

  /** After a row is gone, `invalidate` cannot find its code. A deletion in which every call succeeds
      keeps the views right exactly if the link was not cached under its code. */
  lemma DeleteKeepsIff(s: Links, id: Id, calls: Calls)
    requires Inv(s) && Lookup(s, id, calls).Here?
    requires calls.drop.rowRead && calls.drop.base.del == Ok
    ensures var k := CodeKey(s.rows[id].shortCode);
            Inv(AfterDelete(s, id, Ok, calls)) <==> k !in s.redis && k !in s.memory
  {
    LookupKeeps(s, id, calls);
    var l := s.rows[id];
    var s1 := AfterGet(CFG, s, IdKey(id), calls.get);
    var gone := s1.rows - {id};
    var s2 := s1.(rows := gone);
    var s3 := AfterDrop(s2, id, calls.drop);
    var s' := AfterDrop(s3, id, calls.listener);
    DeletedRow(s1, id);
    DroppedById(s2, id, calls.drop);
    DroppedById(s3, id, calls.listener);
    CodeKeysKept(s, id, calls.get);
    var k := CodeKey(l.shortCode);
    assert k in s'.redis <==> k in s.redis;
    assert k in s'.memory <==> k in s.memory;
    if k in s'.redis || k in s'.memory { assert ByCode(gone, k.id) == None; }
    Layers(s');
  }

  lemma CodeKeysKept(s: Links, id: Id, calls: GetCalls)
    ensures var s' := AfterGet(CFG, s, IdKey(id), calls);
            forall k: Key :: k.scope == CODES ==> (k in s'.redis <==> k in s.redis) && (k in s'.memory <==> k in s.memory)
  {
  }

  /** Without its row, only the id view of a link is dropped. */
  lemma DroppedById(s: Links, id: Id, calls: DropCalls)
    requires id !in s.rows
    ensures var s' := AfterDrop(s, id, calls);
            && Shrunk(s, s')
            && (forall k :: k in s.redis && k != IdKey(id) ==> k in s'.redis)
            && (forall k :: k in s.memory && k != IdKey(id) ==> k in s'.memory)
            && (calls.rowRead && calls.base.del == Ok ==> IdKey(id) !in s'.redis && IdKey(id) !in s'.memory)
  {
  }

  lemma DeletedRow(s: Links, id: Id)
    requires Inv(s) && id in s.rows
    ensures var rows := s.rows - {id};
            && Keyed(CFG, rows) && UniqueCodes(rows)
            && ByCode(rows, s.rows[id].shortCode) == None
            && (forall x :: x != id ==> View(CFG, rows, x) == View(CFG, s.rows, x))
            && (forall code :: code != s.rows[id].shortCode ==> ByCode(rows, code) == ByCode(s.rows, code))
  {
    var rows := s.rows - {id};
    forall code | code != s.rows[id].shortCode ensures ByCode(rows, code) == ByCode(s.rows, code) {
      if ByCode(s.rows, code).Some? {
        var x :| Has(s.rows, x, code);
        ByCodeIs(s.rows, x);
        ByCodeIs(rows, x);
      }
      if ByCode(rows, code).Some? {
        var x :| Has(rows, x, code);
        assert Has(s.rows, x, code);
      }
    }
    var code := s.rows[id].shortCode;
    assert forall x :: Has(rows, x, code) ==> Has(s.rows, x, code);
  }

  // ---------------------------------------------------------------- runs

  /** No deletion; creations with fresh ids, failing wherever they like; updates whose table writes
      and invalidation arrive. */
  ghost predicate Steady(s: Links, r: Request) {
    match r
    case Create(l, _, _) => l.id !in s.rows
    case Update(id, patch, calls) =>
      Lookup(s, id, calls).Here? && id in s.rows ==>
        UpdatedRows(s.rows, s.rows[id], patch, calls.table).1 && DropWorks(s, id, calls.drop)
    case Delete(_, _, _) => false
    case _ => true
  }

  ghost predicate SteadyRun(s: Links, rs: seq<Request>)
    decreases |rs|
  {
    rs == [] || (Steady(s, rs[0]) && SteadyRun(After(s, rs[0]), rs[1..]))
  }

  ghost function Serve(s: Links, rs: seq<Request>): Links
    decreases |rs|
  {
    if rs == [] then s else Serve(After(s, rs[0]), rs[1..])
  }

  lemma StepKeeps(s: Links, r: Request)
    requires Inv(s) && Steady(s, r)
    ensures Inv(After(s, r))
  {
    match r
    case Create(l, custom, calls) => CreateKeeps(s, l, custom, calls);
    case Update(id, patch, calls) =>
      LookupKeeps(s, id, calls);
      UpdateKeeps(s, id, patch, calls);
    case FindById(id, calls) => LookupKeeps(s, id, calls);
    case FindByCode(code, calls) => ByCodeKeeps(s, code, calls);
    case ValuesExpire(redisKeys, memoryKeys) => ShrinkingKeeps(s, After(s, r));
  }

  /** The promise: over every such run the redirect fields that a visitor is sent by are those of the
      row, found under the code or under the id, from whichever layer. */
  lemma {:induction false} ViewsAgree(s: Links, rs: seq<Request>, code: string, byCode: CodeCalls, byId: GetCalls)
    requires Inv(s) && SteadyRun(s, rs)
    ensures var end := Serve(s, rs);
            && Inv(end)
            && (var a := CodeAnswer(end, code, byCode);
                && (a.Some? ==> a.value == ByCode(end.rows, code))
                && (a.None? ==> !byCode.secondRead && (!byCode.redisRead || !byCode.rowRead || byCode.setex != Ok)))
            && (var row := ByCode(end.rows, code);
                row.Some? ==>
                  var a := GetAnswer(CFG, end, IdKey(row.value.id), byId);
                  && (a.Some? ==> a.value == row)
                  && (a.None? ==> !byId.rowRead && !byId.secondRead))
    decreases |rs|
  {
    if rs == [] {
      var row := ByCode(s.rows, code);
      if row.Some? {
        var id :| Has(s.rows, id, code);
        ByCodeIs(s.rows, id);
        GetIsTransparent(CFG, s, "", id, byId);
      }
      Layers(s);
      assert CodeKey(code).id == code;
    } else {
      StepKeeps(s, rs[0]);
      ViewsAgree(After(s, rs[0]), rs[1..], code, byCode, byId);
    }
  }
}
