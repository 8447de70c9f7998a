/** What creating, changing and deleting a short link does, field by field, and what a visitor who
    follows the link's code is then given. */
module LinkChanges {
  import opened Prelude
  import opened BaseCache
  import opened CacheCoherence
  import opened LinkCache

  // ---------------------------------------------------------------- lookups by code

  /** Every call that the lookup makes may work or fail. It throws exactly when memory does not know the
      code, a call that it then needs fails, and the catch block cannot read the table either. */
  lemma CodeLookupAnswers(s: Links, code: string, calls: CodeCalls)
    requires Inv(s)
    ensures var a := CodeAnswer(s, code, calls);
            var hasLink := exists id :: id in s.rows && s.rows[id].shortCode == code;
            && (a.None? <==>
                  && CodeKey(code) !in s.memory && !calls.secondRead
                  && (!calls.redisRead
                      || (CodeKey(code) !in s.redis && (!calls.rowRead || (hasLink && calls.setex != Ok)))))
            && (a.Some? && a.value.Some? ==>
                  exists id :: id in s.rows && s.rows[id].shortCode == code && a.value.value == s.rows[id])
            && (a.Some? && a.value.None? ==> forall id :: id in s.rows ==> s.rows[id].shortCode != code)
  {
    var k, row := CodeKey(code), ByCode(s.rows, code);
    assert k.scope == CODES && k.id == code;
    assert k in s.memory ==> row == Some(s.memory[k]);
    assert k in s.redis ==> row == Some(s.redis[k]);
    if row.Some? {
      var id :| Has(s.rows, id, code);
      assert id in s.rows && s.rows[id].shortCode == code;
      ByCodeIs(s.rows, id);
    } else {
      forall id | id in s.rows ensures s.rows[id].shortCode != code { assert Has(s.rows, id, code) || s.rows[id].shortCode != code; }
    }
  }

  /** One request, answered by memory, by Redis, by the table or by nobody, and counted so; what Redis or
      the table answers stands in memory afterwards, so that the next lookup is answered there. */
  lemma CodeLookupCounts(s: Links, code: string, calls: CodeCalls)
    ensures var s', k := AfterByCode(s, code, calls), CodeKey(code);
            var inMemory := k in s.memory;
            var inRedis := !inMemory && calls.redisRead && k in s.redis;
            var inTable := !inMemory && calls.redisRead && k !in s.redis && calls.rowRead && exists id :: Has(s.rows, id, code);
            && s'.rows == s.rows && s'.index == s.index
            && s'.stats.totalRequests == s.stats.totalRequests + 1
            && s'.stats.l2Hits == s.stats.l2Hits + (if inMemory then 1 else 0)
            && s'.stats.l2Misses == s.stats.l2Misses + (if inMemory then 0 else 1)
            && s'.stats.l1Hits == s.stats.l1Hits + (if inRedis then 1 else 0)
            && s'.stats.l1Misses == s.stats.l1Misses + (if !inMemory && calls.redisRead && k !in s.redis then 1 else 0)
            && s'.stats.databaseHits == s.stats.databaseHits + (if inTable then 1 else 0)
            && (k in s'.memory <==> inMemory || inRedis || (inTable && calls.setex == Ok))
            && (k in s'.redis <==> k in s.redis || (inTable && calls.setex != Failed))
            && (k in s'.memory && !inMemory ==> k in s'.redis && s'.memory[k] == s'.redis[k])
  {
  }

  // ---------------------------------------------------------------- updates

  /** The link after an update whose calls all work: the fields that the patch names have its values,
      except that an expiry cannot be cleared; all others stay. */
  predicate Became(l: Link, p: Patch, l': Link) {
    && l'.id == l.id && l'.shortCode == l.shortCode
    && l'.originalUrl == (if p.originalUrl.Some? then p.originalUrl.value else l.originalUrl)
    && l'.isActive == (if p.isActive.Some? then p.isActive.value else l.isActive)
    && l'.expiresAt == (if p.expiresAt.Some? && p.expiresAt.value.Some? then p.expiresAt.value else l.expiresAt)
    && l'.parameters == (if p.parameters.Some? then p.parameters.value else l.parameters)
  }

  /** The table writes that the patch needs are acknowledged, and so is the invalidation. */
  predicate AllArrive(p: Patch, calls: Calls) {
    && calls.table.save == Ok && (p.parameters.Some? ==> calls.table.delParams == Ok && calls.table.saveParams == Ok)
    && calls.drop.rowRead && calls.drop.delCode == Ok && calls.drop.counter && calls.drop.base.del == Ok
  }

  lemma UpdateWritesTheRow(s: Links, id: Id, patch: Patch, calls: Calls)
    requires Inv(s) && Lookup(s, id, calls).Here? && AllArrive(patch, calls)
    ensures var s' := AfterUpdate(s, id, patch, calls);
            id in s.rows && id in s'.rows && s'.rows == s.rows[id := s'.rows[id]] && Became(s.rows[id], patch, s'.rows[id])
  {
    LookupKeeps(s, id, calls);
    UpdateWritesThePatch(s.rows, id, patch, calls.table);
    var rows := UpdatedRows(s.rows, s.rows[id], patch, calls.table).0;
    var s2 := AfterGet(CFG, s, IdKey(id), calls.get).(rows := rows);
    DropShrinks(s2, id, calls.drop);
    DropShrinks(AfterDrop(s2, id, calls.drop), id, calls.listener);
  }

  /** A link that has a row is found under its code and under its id, as the row is. */
  lemma LookupsShowTheRow(s: Links, id: Id, byCode: CodeCalls, byId: GetCalls)
    requires Inv(s) && id in s.rows
    ensures var a := CodeAnswer(s, s.rows[id].shortCode, byCode); a.Some? ==> a.value == Some(s.rows[id])
    ensures var a := GetAnswer(CFG, s, IdKey(id), byId); a.Some? ==> a.value == Some(s.rows[id])
  {
    CodeLookupAnswers(s, s.rows[id].shortCode, byCode);
    GetIsTransparent(CFG, s, "", id, byId);
  }

  /** What the visitor of a changed link gets, from whichever layer, and what its owner gets by id: the
      link as it has become. A link that was deactivated is not active for anybody. */
  lemma VisitorsSeeTheUpdate(s: Links, id: Id, patch: Patch, calls: Calls, byCode: CodeCalls, byId: GetCalls)
    requires Inv(s) && Lookup(s, id, calls).Here? && AllArrive(patch, calls)
    ensures id in s.rows
    ensures var a := CodeAnswer(AfterUpdate(s, id, patch, calls), s.rows[id].shortCode, byCode);
            a.Some? ==> a.value.Some? && Became(s.rows[id], patch, a.value.value)
    ensures var a := GetAnswer(CFG, AfterUpdate(s, id, patch, calls), IdKey(id), byId);
            a.Some? ==> a.value.Some? && Became(s.rows[id], patch, a.value.value)
  {
    LookupKeeps(s, id, calls);
    UpdateWritesThePatch(s.rows, id, patch, calls.table);
    UpdateKeeps(s, id, patch, calls);
    UpdateWritesTheRow(s, id, patch, calls);
    LookupsShowTheRow(AfterUpdate(s, id, patch, calls), id, byCode, byId);
  }

  /** `findById`: the row, or not found exactly if there is none. */
  lemma FindByIdAnswers(s: Links, id: Id, calls: Calls)
    requires Inv(s)
    ensures var f := Lookup(s, id, calls);
            && (f.Here? ==> id in s.rows && f.link == s.rows[id])
            && (f.NotFound? ==> id !in s.rows && calls.rowRead)
            && (f.Thrown? ==> !calls.rowRead || (!calls.get.rowRead && !calls.get.secondRead))
  {
    GetIsTransparent(CFG, s, "", id, calls.get);
  }

  /** The index forgets an updated link as soon as one of the two invalidations, its own or that of the
      listener, gets to remove the entry. */
  lemma UpdateLeavesTheIndex(s: Links, id: Id, patch: Patch, calls: Calls)
    requires Inv(s) && Lookup(s, id, calls).Here? && AllArrive(patch, calls)
    ensures var l := calls.listener;
            id in Indexed(AfterUpdate(s, id, patch, calls), "") <==>
              && id in Indexed(s, "") && !calls.drop.base.srem
              && !(l.rowRead && l.delCode == Ok && l.counter && l.base.del == Ok && l.base.srem)
  {
    LookupKeeps(s, id, calls);
    UpdateWritesThePatch(s.rows, id, patch, calls.table);
    var rows := UpdatedRows(s.rows, s.rows[id], patch, calls.table).0;
    var s2 := AfterGet(CFG, s, IdKey(id), calls.get).(rows := rows);
    assert Indexed(s2, "") == Indexed(s, "");
    DropLeavesTheIndex(s2, id, calls.drop);
    DropLeavesTheIndex(AfterDrop(s2, id, calls.drop), id, calls.listener);
  }

  lemma DropLeavesTheIndex(s: Links, id: Id, calls: DropCalls)
    requires id in s.rows
    ensures var s', works := AfterDrop(s, id, calls), calls.rowRead && calls.delCode == Ok && calls.counter && calls.base.del == Ok;
            s'.rows == s.rows && (id in Indexed(s', "") <==> id in Indexed(s, "") && !(works && calls.base.srem))
  {
  }

  /** A link that is found only in the cache, its row being gone: an update that needs no parameters stores
      it again, as patched; one that has parameters to store breaks their foreign key. */
  lemma UpdateRevivesALink(rows: map<Id, Link>, l: Link, p: Patch, calls: TableCalls)
    requires l.id !in rows
    ensures var (after, reached) := UpdatedRows(rows, l, p, calls);
            var saves := p.parameters.None? || (calls.delParams == Ok && calls.saveParams == Ok && p.parameters.value == []);
            && (!saves || calls.save == Failed ==> after == rows && !reached)
            && (saves && calls.save != Failed ==>
                  && l.id in after && after == rows[l.id := after[l.id]] && (reached <==> calls.save == Ok)
                  && after[l.id].id == l.id && after[l.id].shortCode == l.shortCode
                  && after[l.id].originalUrl == (if p.originalUrl.Some? then p.originalUrl.value else l.originalUrl)
                  && after[l.id].isActive == (if p.isActive.Some? then p.isActive.value else l.isActive)
                  && after[l.id].expiresAt == (if p.expiresAt.Some? then p.expiresAt.value else l.expiresAt)
                  && after[l.id].parameters == (if p.parameters.Some? then [] else l.parameters))
  {
  }

  // ---------------------------------------------------------------- creation

  /** What a creation leaves in the table: nothing if its save fails or its code is taken; the link
      without its parameters if the acknowledgement of the link or the write of the parameters is lost;
      else all of it. Only if everything was acknowledged does the caching follow. */
  lemma CreationWritesTheLink(rows: map<Id, Link>, l: Link, calls: CreateCalls)
    ensures var (after, reached) := CreatedRows(rows, l, calls);
            var taken := exists id :: id in rows && rows[id].shortCode == l.shortCode;
            && (calls.save == Failed || taken ==> after == rows && !reached)
            && (calls.save == AckLost && !taken ==> after == rows[l.id := l.(parameters := [])] && !reached)
            && (calls.save == Ok && !taken && l.parameters == [] ==> after == rows[l.id := l] && reached)
            && (calls.save == Ok && !taken && l.parameters != [] ==>
                  && after == rows[l.id := if calls.saveParams == Failed then l.(parameters := []) else l]
                  && (reached <==> calls.saveParams == Ok))
  {
    assert Taken(rows, l.shortCode) <==> exists id :: id in rows && rows[id].shortCode == l.shortCode by {
      if id :| id in rows && rows[id].shortCode == l.shortCode { assert Has(rows, id, l.shortCode); }
    }
  }

  /** After a creation in which every call works, the link is found under its code at once: its copy is
      in both layers, while the listener has dropped the copy under its id again. A link with a domain of
      its own is not cached at all. */
  lemma CreationCachesTheCode(s: Links, l: Link, custom: bool, calls: CreateCalls)
    requires Inv(s) && l.id !in s.rows && !Taken(s.rows, l.shortCode)
    requires calls.save == Ok && calls.saveParams == Ok && calls.setex == Ok && calls.put == SetCalls(true, true)
    requires calls.clear == ClearCalls(true, Ok, Ok)
    ensures var s', k := AfterCreate(s, l, custom, calls), CodeKey(l.shortCode);
            && s'.rows == s.rows[l.id := l]
            && (if custom then k !in s'.redis && k !in s'.memory
                else k in s'.redis && k in s'.memory && s'.redis[k] == l && s'.memory[k] == l)
            && IdKey(l.id) !in s'.redis && IdKey(l.id) !in s'.memory
  {
    CreationWritesTheLink(s.rows, l, calls);
    NotYetCached(s, l);
    var s1 := s.(rows := s.rows[l.id := l]);
    if custom {
      ClearedById(s1, l.id, calls.clear);
    } else {
      ClearedById(AfterSetLink(s1, l, calls.put, Ok), l.id, calls.clear);
    }
  }

  /** If the copy under the code cannot be written, the creation throws and the listener hears nothing: the
      copy under the id stays, and Redis has the one under the code only if just its acknowledgement was
      lost. */
  lemma BrokenCachingKeepsTheIdCopy(s: Links, l: Link, calls: CreateCalls)
    requires Inv(s) && l.id !in s.rows && !Taken(s.rows, l.shortCode)
    requires calls.save == Ok && calls.saveParams == Ok && calls.setex != Ok
    ensures var s', id, code := AfterCreate(s, l, false, calls), IdKey(l.id), CodeKey(l.shortCode);
            && s'.rows == s.rows[l.id := l]
            && (id in s'.redis <==> calls.put.redisWrite) && (id in s'.memory && s'.memory[id] == l)
            && (code in s'.redis <==> calls.setex == AckLost) && code !in s'.memory
            && (calls.put.indexWrite ==> l.id in Indexed(s', ""))
  {
    CreationWritesTheLink(s.rows, l, calls);
    NotYetCached(s, l);
  }

  lemma NotYetCached(s: Links, l: Link)
    requires Inv(s) && l.id !in s.rows && !Taken(s.rows, l.shortCode)
    ensures IdKey(l.id) !in s.redis && IdKey(l.id) !in s.memory
    ensures CodeKey(l.shortCode) !in s.redis && CodeKey(l.shortCode) !in s.memory
  {
    assert forall k :: (k in s.redis || k in s.memory) && k.scope == "" ==> View(CFG, s.rows, k.id).Some?;
    assert forall k :: (k in s.redis || k in s.memory) && k.scope == CODES ==> ByCode(s.rows, k.id).Some?;
    assert IdKey(l.id).id == l.id && CodeKey(l.shortCode).id == l.shortCode;
  }

  /** Invalidating everything drops the copies of indexed ids and no copy under a code. */
  lemma ClearedById(s: Links, id: Id, calls: ClearCalls)
    requires calls == ClearCalls(true, Ok, Ok)
    ensures var s' := AfterClear(CFG, s, "", calls);
            && s'.rows == s.rows
            && SameLayer(s.redis, s'.redis, CODES) && SameLayer(s.memory, s'.memory, CODES)
            && (IdKey(id) in s'.redis <==> IdKey(id) in s.redis && id !in Indexed(s, ""))
            && (IdKey(id) in s'.memory <==> IdKey(id) in s.memory && id !in Indexed(s, ""))
  {
  }

  // ---------------------------------------------------------------- deletion

  /** A deletion removes the row and nothing else from the table, unless its call fails. If its call throws
      the cache is left as the lookup left it. When everything works nobody finds the link under its id any more. */
  lemma DeletionRemovesTheRow(s: Links, id: Id, remove: Outcome, calls: Calls, byId: GetCalls)
    requires Inv(s) && Lookup(s, id, calls).Here?
    ensures var s', looked := After(s, Delete(id, remove, calls)), AfterGet(CFG, s, IdKey(id), calls.get);
            && s'.rows == (if remove == Failed then s.rows else s.rows - {id})
            && (remove != Ok ==> s'.redis == looked.redis && s'.memory == looked.memory && s'.index == looked.index)
            && (remove == Ok && calls.drop.rowRead && calls.drop.base.del == Ok ==>
                  var a := GetAnswer(CFG, s', IdKey(id), byId); a.Some? ==> a.value == None)
  {
    if remove == Ok {
      var s2 := AfterGet(CFG, s, IdKey(id), calls.get).(rows := s.rows - {id});
      DroppedById(s2, id, calls.drop);
      DroppedById(AfterDrop(s2, id, calls.drop), id, calls.listener);
    }
  }
}
