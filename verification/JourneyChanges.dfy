/** What the requests of `JourneysService` do to a journey, field by field, and what `findActive` and
    the lookups then answer. */
module JourneyChanges {
  import opened Prelude
  import opened BaseCache
  import opened CacheCoherence
  import opened Journeys

  /** What a trigger column says, however it is written down: text that does not parse says nothing. */
  predicate Says(triggers: Triggers, items: seq<string>) {
    match triggers
    case List(ts) => items == ts
    case Json(ts) => items == ts
    case Broken => items == []
    case Unset => items == []
  }

  /** `j` is the row, with its triggers as a list and its variables filled in. */
  predicate SameJourney(j: Journey, row: Journey) {
    && j.id == row.id && j.name == row.name && j.isActive == row.isActive && j.body == row.body
    && j.flowTriggers.List? && Says(row.flowTriggers, j.flowTriggers.items)
    && j.variables == Some(if row.variables.Some? then row.variables.value else [])
  }

  /** The journey of the list with this id is the row with this id. */
  ghost predicate Shows(js: seq<Journey>, rows: map<Id, Journey>) {
    forall i :: 0 <= i < |js| ==> js[i].id in rows && (SameJourney(js[i], rows[js[i].id]) || js[i] == rows[js[i].id])
  }

  lemma RestoredIsTheRow(row: Journey, j: Journey)
    ensures SameJourney(FromCached(ToCached(row)), row)
    ensures j == FromCached(ToCached(row)) <==> SameJourney(j, row)
  {
  }

  /** `findOne`: the row, or not found exactly if there is none. */
  lemma LookupShowsTheRow(s: Journal, scope: Scope, id: Id, calls: Calls)
    requires Coherent(CFG, s, scope)
    ensures var f := Lookup(s, scope, id, calls);
            && (f.Here? ==> id in s.rows && SameJourney(f.journey, s.rows[id]))
            && (f.NotFound? ==> id !in s.rows && calls.rowRead)
            && (f.Thrown? ==> !calls.rowRead || (!calls.get.rowRead && !calls.get.secondRead))
  {
    GetIsTransparent(CFG, s, scope, id, calls.get);
    if id in s.rows { RestoredIsTheRow(s.rows[id], FromCached(ToCached(s.rows[id]))); }
  }

  // ---------------------------------------------------------------- changes

  /** The journey after a change: the fields that the change names have its values, all others say what
      they said. */
  predicate Became(row: Journey, change: Change, row': Journey) {
    && row'.id == row.id && row'.body == row.body
    && row'.name == (if change.Patch? && change.name.Some? then change.name.value else row.name)
    && row'.isActive == (if change.Toggle? then !row.isActive
                         else if change.Patch? && change.isActive.Some? then change.isActive.value
                         else row.isActive)
    && (if change.Patch? && change.flowTriggers.Some? then row'.flowTriggers == change.flowTriggers.value
        else row'.flowTriggers.List? && Says(row.flowTriggers, row'.flowTriggers.items))
    && row'.variables == Some(if change.Variables? then change.variables
                              else if row.variables.Some? then row.variables.value else [])
  }

  lemma AppliedIs(row: Journey, change: Change, j: Journey)
    requires SameJourney(j, row)
    ensures Became(row, change, Applied(change, j))
  {
  }

  /** `update`, `toggleActive` and `updateJourneyVariables`, as far as table and answer go. */
  lemma ChangeWritesTheRow(s: Journal, scope: Scope, id: Id, change: Change, calls: Calls)
    requires Coherent(CFG, s, scope) && Keyed(CFG, s.rows) && Lookup(s, scope, id, calls).Here?
    ensures var rows' := After(s, scope, Modify(id, change, calls)).rows;
            var answer := Changed(Lookup(s, scope, id, calls), change, calls.table);
            && id in s.rows
            && (calls.table == Failed ==> rows' == s.rows)
            && (calls.table != Failed ==> id in rows' && Became(s.rows[id], change, rows'[id]) && rows' == s.rows[id := rows'[id]])
            && answer == if calls.table == Ok then Here(rows'[id]) else Thrown
  {
    LookupShowsTheRow(s, scope, id, calls);
    var j := Lookup(s, scope, id, calls).journey;
    assert CFG.idOf(s.rows[id]) == id && j.id == id;
    AppliedIs(s.rows[id], change, j);
    SavedRows(AfterLookup(s, scope, id, calls), scope, Applied(change, j), calls);
  }

  lemma SavedRows(s: Journal, scope: Scope, j: Journey, calls: Calls)
    ensures AfterSaving(s, scope, j, calls).rows == if calls.table == Failed then s.rows else s.rows[j.id := j]
  {
  }

  /** Any later lookup, from Redis or from the table, answers the journey as it has become. */
  lemma ChangeIsWhatLookupsShow(s: Journal, scope: Scope, id: Id, change: Change, calls: Calls, later: Calls)
    requires Coherent(CFG, s, scope) && Keyed(CFG, s.rows) && Lookup(s, scope, id, calls).Here?
    requires calls.table == Ok && calls.put.redisWrite
    ensures var s' := After(s, scope, Modify(id, change, calls));
            var f := Lookup(s', scope, id, later);
            && id in s.rows && !f.NotFound?
            && (f.Here? && !(change.Patch? && change.flowTriggers.Some?) ==> Became(s.rows[id], change, f.journey))
            && (f.Here? ==> id in s'.rows && SameJourney(f.journey, s'.rows[id]))
  {
    LookupShowsTheRow(s, scope, id, calls);
    ChangeWritesTheRow(s, scope, id, change, calls);
    var s', looked := After(s, scope, Modify(id, change, calls)), AfterLookup(s, scope, id, calls);
    StepKeepsCoherence(CFG, s, Call(scope, Get(id, calls.get)), scope);
    StepKeepsCoherence(CFG, looked, Call(scope, Save(Applied(change, Lookup(s, scope, id, calls).journey), calls.put)), scope);
    LookupShowsTheRow(s', scope, id, later);
  }

  /** With a complete index the answer lists exactly the active rows. */
  lemma ActiveAnswerIds(s: Journal, scope: Scope, all: AllCalls, rowRead: bool, id: Id)
    requires Inv(s, scope) && Legal(s, Call(scope, GetAll(0, all))) && ActiveAnswer(s, scope, all, rowRead).Some?
    ensures id in Ids(ActiveAnswer(s, scope, all, rowRead).value) <==> IsActive(s.rows, id)
  {
    FindActiveIsExactIff(s, scope, all, rowRead);
    var js := ActiveAnswer(s, scope, all, rowRead).value;
    if id in Ids(js) {
      var i :| 0 <= i < |js| && Ids(js)[i] == id;
      assert IsActive(s.rows, js[i].id);
    }
  }

  /** Toggling moves the journey into what `findActive` answers, or out of it, and moves no other. */
  lemma ToggleEntersOrLeaves(s: Journal, scope: Scope, id: Id, calls: Calls, all: AllCalls, rowRead: bool)
    requires Inv(s, scope) && Lookup(s, scope, id, calls).Here?
    requires calls.table == Ok && calls.put == SetCalls(true, true)
    requires var s' := After(s, scope, Modify(id, Toggle, calls));
             Legal(s', Call(scope, GetAll(0, all))) && ActiveAnswer(s', scope, all, rowRead).Some?
    ensures var s' := After(s, scope, Modify(id, Toggle, calls));
            var active := Ids(ActiveAnswer(s', scope, all, rowRead).value);
            && id in s.rows && id in s'.rows && s'.rows[id].isActive == !s.rows[id].isActive
            && (id in active <==> !s.rows[id].isActive)
            && (forall other :: other != id ==> (other in active <==> other in s.rows && s.rows[other].isActive))
  {
    var s' := After(s, scope, Modify(id, Toggle, calls));
    ChangeWritesTheRow(s, scope, id, Toggle, calls);
    StepKeepsInv(s, scope, Modify(id, Toggle, calls));
    forall other { ActiveAnswerIds(s', scope, all, rowRead, other); }
  }

  /** Toggling twice shows what was shown before. */
  lemma TwoTogglesRestore(s: Journal, scope: Scope, id: Id, first: Calls, second: Calls)
    requires Coherent(CFG, s, scope) && Keyed(CFG, s.rows) && Lookup(s, scope, id, first).Here?
    requires first.table == Ok && second.table == Ok && first.put.redisWrite
    requires Lookup(After(s, scope, Modify(id, Toggle, first)), scope, id, second).Here?
    ensures var s'' := After(After(s, scope, Modify(id, Toggle, first)), scope, Modify(id, Toggle, second));
            id in s.rows && id in s''.rows && SameJourney(s''.rows[id], s.rows[id])
  {
    LookupShowsTheRow(s, scope, id, first);
    ChangeWritesTheRow(s, scope, id, Toggle, first);
    var s', looked := After(s, scope, Modify(id, Toggle, first)), AfterLookup(s, scope, id, first);
    StepKeepsCoherence(CFG, s, Call(scope, Get(id, first.get)), scope);
    StepKeepsCoherence(CFG, looked, Call(scope, Save(Applied(Toggle, Lookup(s, scope, id, first).journey), first.put)), scope);
    ChangeWritesTheRow(s', scope, id, Toggle, second);
  }

  // ---------------------------------------------------------------- the other requests

  /** A created journey is in the table as given and is what lookups show; a lost acknowledgement
      leaves it in the table alone, a failed save nowhere. */
  lemma CreateStoresTheJourney(s: Journal, scope: Scope, j: Journey, calls: Calls)
    ensures var s', k := After(s, scope, Create(j, calls)), Key(scope, j.id);
            && s'.rows == (if calls.table == Failed then s.rows else s.rows[j.id := j])
            && (calls.table != Ok ==> s'.redis == s.redis && s'.index == s.index)
            && (calls.table == Ok && calls.put.redisWrite ==> k in s'.redis && SameJourney(FromCached(s'.redis[k]), j))
            && (calls.table == Ok && calls.put.indexWrite ==> j.id in Indexed(s', scope))
  {
    RestoredIsTheRow(j, FromCached(ToCached(j)));
  }

  lemma CachedHasARow(s: Journal, scope: Scope)
    requires Coherent(CFG, s, scope)
    ensures forall k :: k in s.redis && k.scope == scope ==> k.id in s.rows
  {
    forall k | k in s.redis && k.scope == scope ensures k.id in s.rows {
      assert View(CFG, s.rows, k.id) == Some(s.redis[k]);
    }
  }

  /** The copy of a journey is inactive, says so in its name, is otherwise the journey, and is not
      cached under its fresh id; the journey itself stays as it is. */
  lemma DuplicateIsAnInactiveCopy(s: Journal, scope: Scope, id: Id, copy: Id, calls: Calls)
    requires Coherent(CFG, s, scope) && copy !in s.rows && Lookup(s, scope, id, calls).Here?
    ensures var s' := After(s, scope, Duplicate(id, copy, calls));
            var answer := Copied(Lookup(s, scope, id, calls), copy, calls.table);
            && id in s.rows && Key(scope, copy) !in s'.redis && s'.index == s.index
            && (calls.table == Failed ==> s'.rows == s.rows)
            && (calls.table != Failed ==>
                  && copy in s'.rows && s'.rows == s.rows[copy := s'.rows[copy]]
                  && SameJourney(s'.rows[copy], s.rows[id].(id := copy, name := s.rows[id].name + " (Copy)", isActive := false)))
            && answer == if calls.table == Ok then Here(s'.rows[copy]) else Thrown
  {
    LookupShowsTheRow(s, scope, id, calls);
    CachedHasARow(s, scope);
  }

  /** A removed journey is gone from the table and, if the invalidation goes through, from Redis; if its
      index entry goes as well, the index forgets it. Nothing else does. */
  lemma RemoveForgetsTheJourney(s: Journal, scope: Scope, id: Id, calls: Calls)
    requires Coherent(CFG, s, scope) && Lookup(s, scope, id, calls).Here?
    ensures var s' := After(s, scope, Delete(id, calls));
            var answer := Removed(Lookup(s, scope, id, calls), calls);
            var drops := calls.table == Ok && calls.invalidate.del != Failed;
            && s'.rows == (if calls.table == Failed then s.rows else s.rows - {id})
            && (drops ==> Key(scope, id) !in s'.redis)
            && (forall other :: other in Indexed(s', scope) <==>
                  other in Indexed(s, scope)
                  && !(other == id && calls.table == Ok && calls.invalidate.del == Ok && calls.invalidate.srem))
            && (answer.Thrown? <==> calls.table != Ok || calls.invalidate.del != Ok)
  {
  }

  /** Warming counts the active journeys. */
  lemma WarmingCountsTheActive(rows: map<Id, Journey>, listing: seq<Id>)
    requires Lists(listing, rows)
    ensures |RowsOf(rows, ActiveIn(rows, listing))| == |set id | id in rows && rows[id].isActive|
  {
    var ids := ActiveIn(rows, listing);
    ActiveInIs(rows, listing);
    RowsAt(rows, ids);
    SetSize(ids);
    assert Set(ids) == set id | id in rows && rows[id].isActive;
  }

  lemma {:induction false} PutsCache(s: Journal, scope: Scope, ids: seq<Id>, lost: map<Id, SetCalls>)
    requires Keyed(CFG, s.rows)
    ensures var s' := AfterPuts(s, scope, ids, lost);
            forall id :: id in ids && id in s.rows && id !in lost ==>
              Key(scope, id) in s'.redis && SameJourney(FromCached(s'.redis[Key(scope, id)]), s.rows[id])
    decreases |ids|
  {
    if ids != [] {
      var init, last := ids[..|ids| - 1], ids[|ids| - 1];
      assert ids == init + [last];
      PutsCache(s, scope, init, lost);
      if last in s.rows {
        assert CFG.idOf(s.rows[last]) == last;
        RestoredIsTheRow(s.rows[last], FromCached(ToCached(s.rows[last])));
      }
    }
  }

  /** Warming caches and indexes each active journey whose writes arrive, as its row is. */
  lemma WarmingCachesTheActive(s: Journal, scope: Scope, listing: seq<Id>, lost: map<Id, SetCalls>)
    requires Coherent(CFG, s, scope) && Keyed(CFG, s.rows) && Lists(listing, s.rows)
    ensures var s' := After(s, scope, Warm(listing, true, lost));
            && s'.rows == s.rows
            && forall id :: id in s.rows && s.rows[id].isActive && id !in lost ==>
                 && id in Indexed(s', scope) && Key(scope, id) in s'.redis
                 && SameJourney(FromCached(s'.redis[Key(scope, id)]), s.rows[id])
  {
    var ids := ActiveIn(s.rows, listing);
    ActiveInIs(s.rows, listing);
    assert forall id :: id in ids <==> id in s.rows && s.rows[id].isActive;
    assert AfterPuts(s, scope, ids, lost).rows == s.rows
           && forall id :: id in ids && id in s.rows && id !in lost ==> id in Indexed(AfterPuts(s, scope, ids, lost), scope) by {
      PutsKeep(s, scope, ids, lost);
    }
    PutsCache(s, scope, ids, lost);
  }

  /** When the cache shows no active journey, `findActive` does not only answer from the table: with its
      writes arriving it makes the index complete, whatever it held before. */
  lemma FallingBackRepairsTheIndex(s: Journal, scope: Scope, all: AllCalls)
    requires Coherent(CFG, s, scope) && Keyed(CFG, s.rows) && Legal(s, Call(scope, GetAll(0, all)))
    requires ActiveOf(AllAnswer(CFG, s, scope, 0, all)) == []
    ensures Inv(After(s, scope, FindActive(all, true, map[])), scope)
  {
    var s1 := AfterAll(CFG, s, scope, 0, all);
    AllKeepsCoherence(CFG, s, scope, 0, all, scope);
    AllKeepsIndex(s, scope, all);
    PutsKeep(s1, scope, ActiveIn(s.rows, all.batch.listing), map[]);
    ActiveInIs(s.rows, all.batch.listing);
  }

  /** When the cache shows some, or the table cannot be read, it leaves the cache as the lookup did: the rows
      are not written again. Warming without the table changes nothing. */
  lemma FindActiveOtherwiseOnlyReads(s: Journal, scope: Scope, all: AllCalls, rowRead: bool, lost: map<Id, SetCalls>)
    requires ActiveOf(AllAnswer(CFG, s, scope, 0, all)) != [] || !rowRead
    ensures After(s, scope, FindActive(all, rowRead, lost)) == AfterAll(CFG, s, scope, 0, all)
    ensures After(s, scope, Warm(all.batch.listing, false, lost)) == s
  {
  }

  /** Requests for a journey that is not found, or whose lookup throws, change no row and no index entry,
      and answer as the lookup did. */
  lemma NotFoundChangesNothing(s: Journal, scope: Scope, id: Id, change: Change, copy: Id, calls: Calls)
    requires !Lookup(s, scope, id, calls).Here?
    ensures forall r :: r in [Modify(id, change, calls), Delete(id, calls), Duplicate(id, copy, calls)] ==>
              After(s, scope, r).rows == s.rows && After(s, scope, r).index == s.index
    ensures var f := Lookup(s, scope, id, calls);
            Changed(f, change, calls.table) == f && Removed(f, calls) == f && Copied(f, copy, calls.table) == f
  {
  }

  /** What `findActive` answers is the rows themselves, in the form that the cache gives them or as the
      table has them. */
  lemma FindActiveShowsTheRows(s: Journal, scope: Scope, all: AllCalls, rowRead: bool)
    requires Coherent(CFG, s, scope) && Keyed(CFG, s.rows) && Legal(s, Call(scope, GetAll(0, all)))
    requires ActiveAnswer(s, scope, all, rowRead).Some?
    ensures var js := ActiveAnswer(s, scope, all, rowRead).value; Shows(js, s.rows)
  {
    FindActiveIsExactIff(s, scope, all, rowRead);
    var js := ActiveAnswer(s, scope, all, rowRead).value;
    var cached := ActiveOf(AllAnswer(CFG, s, scope, 0, all));
    forall i | 0 <= i < |js|
      ensures js[i].id in s.rows && (SameJourney(js[i], s.rows[js[i].id]) || js[i] == s.rows[js[i].id])
    {
      assert IsActive(s.rows, js[i].id);
      if cached != [] {
        CachingTwice(cached[i], s.rows[js[i].id]);
      } else {
        ActiveInIs(s.rows, all.batch.listing);
        RowsAt(s.rows, ActiveIn(s.rows, all.batch.listing));
        var id := ActiveIn(s.rows, all.batch.listing)[i];
        assert CFG.idOf(s.rows[id]) == id;
      }
    }
  }

  lemma CachingTwice(c: CachedJourney, row: Journey)
    requires ToCached(FromCached(c)) == ToCached(row)
    ensures SameJourney(FromCached(c), row)
  {
  }
}
