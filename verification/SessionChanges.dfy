/** What storing, updating and waiting do to a journey session, field by field: in the row, in the copy
    that Redis holds, and so in what a lookup answers. */
module SessionChanges {
  import opened Prelude
  import opened BaseCache
  import opened CacheCoherence
  import opened SessionStore

  /** The optional fields of the row of `id`, if there is one. */
  function FieldsOf(rows: map<Id, Session>, id: Id): map<string, string> {
    if id in rows then rows[id].optional else map[]
  }

  /** The field is there in both or in neither, with one value. */
  predicate SameField(a: map<string, string>, b: map<string, string>, f: string) {
    (f in a <==> f in b) && (f in a && f in b ==> a[f] == b[f])
  }

  predicate HasField(m: map<string, string>, f: string, value: string) { f in m && m[f] == value }

  // ---------------------------------------------------------------- set

  /** The row that a stored session leaves: its own values, and what the row had where it has none. */
  ghost predicate StoredAs(rows: map<Id, Session>, v: Session, row: Session) {
    && row.id == v.id && row.journeyId == v.journeyId && row.status == v.status
    && row.contactId == (if v.contactId.None? && v.id in rows then rows[v.id].contactId else v.contactId)
    && row.variables == Some(if v.variables.Some? then v.variables.value else "{}")
    && row.executionLogs == Some(if v.executionLogs.Some? then v.executionLogs.value else "[]")
    && row.retryCount == Some(if v.retryCount.Some? then v.retryCount.value else 0)
    && row.maxRetries == Some(if v.maxRetries.Some? then v.maxRetries.value else 3)
    && forall f :: if f in v.optional then HasField(row.optional, f, v.optional[f])
                   else SameField(FieldsOf(rows, v.id), row.optional, f)
  }

  /** The copy in Redis: the session, with its variables and logs filled in. */
  ghost predicate CopiedAs(v: Session, copy: Session) {
    && copy.id == v.id && copy.journeyId == v.journeyId && copy.status == v.status && copy.contactId == v.contactId
    && copy.variables == Some(if v.variables.Some? then v.variables.value else "{}")
    && copy.executionLogs == Some(if v.executionLogs.Some? then v.executionLogs.value else "[]")
    && copy.retryCount == v.retryCount && copy.maxRetries == v.maxRetries
    && forall f :: SameField(v.optional, copy.optional, f)
  }

  lemma MergedIs(rows: map<Id, Session>, v: Session)
    ensures StoredAs(rows, v, Merged(rows, v))
    ensures CopiedAs(v, ToCached(v))
  {
  }

  /** `set` succeeds exactly if its calls do and the session names a contact or, naming none, has a row.
      An empty text is no contact. */
  lemma SetWorksIff(s: Sessions, v: Session, calls: StoreCalls)
    ensures SetWorks(s, v, calls) <==>
              && calls.save == Ok
              && if v.contactId.Some? then v.contactId.value != "" && calls.ensure == Ok else v.id in s.store.rows
  {
  }

  /** Where `set` leaves Postgres and Redis, whichever of its calls fail: the copy is written first and
      stays whatever follows; the contact's row is made next, empty if it was missing; the session's row
      comes last. */
  lemma SetStores(s: Sessions, v: Session, calls: StoreCalls)
    ensures var s', k := AfterSetSession(s, v, calls), Key("", v.id);
            var stores := calls.save != Failed
                          && if v.contactId.Some? then v.contactId.value != "" && calls.ensure == Ok else v.id in s.store.rows;
            var contactMade := v.contactId.Some? && v.contactId.value != "" && calls.ensure != Failed;
            && (calls.put.redisWrite ==> k in s'.store.redis && CopiedAs(v, s'.store.redis[k]))
            && (!calls.put.redisWrite ==> s'.store.redis == s.store.redis)
            && s'.contacts == (if contactMade && v.contactId.value !in s.contacts then s.contacts[v.contactId.value := ""]
                               else s.contacts)
            && (stores ==> v.id in s'.store.rows && s'.store.rows == s.store.rows[v.id := s'.store.rows[v.id]]
                           && StoredAs(s.store.rows, v, s'.store.rows[v.id]))
            && (!stores ==> s'.store.rows == s.store.rows)
            && s'.waiting == s.waiting
  {
    SetEffect(s, v, calls);
    MergedIs(s.store.rows, v);
  }

  /** A journey that could not be started is on record as failed, with no retries made and three allowed. */
  lemma FailedDispatchIsStored(s: Sessions, id: Id, journey: string, contact: ContactId, optional: map<string, string>, calls: StoreCalls)
    requires contact != "" && calls.ensure == Ok && calls.save != Failed
    ensures var rows := AfterSetSession(s, FailedDispatch(id, journey, contact, optional), calls).store.rows;
            && id in rows && rows[id].status == "failed" && rows[id].journeyId == journey && rows[id].contactId == Some(contact)
            && rows[id].retryCount == Some(0) && rows[id].maxRetries == Some(3)
            && rows[id].variables == Some("{}") && rows[id].executionLogs == Some("[]")
            && forall f :: f in optional ==> HasField(rows[id].optional, f, optional[f])
  {
    SetStores(s, FailedDispatch(id, journey, contact, optional), calls);
  }

  // ---------------------------------------------------------------- updates

  /** A field of the copy after an update: named with a value it has that value, named without it is
      gone, and not named it is what was found. */
  predicate CopyField(fields: map<string, Option<string>>, found: map<string, string>, copy: map<string, string>, f: string) {
    if f !in fields then SameField(found, copy, f)
    else if fields[f].Some? then HasField(copy, f, fields[f].value)
    else f !in copy
  }

  /** A field of the row after an update: as in the copy, but what the copy has lost the row keeps. */
  predicate RowField(fields: map<string, Option<string>>, found: map<string, string>,
                     before: map<string, string>, row: map<string, string>, f: string) {
    if f in fields && fields[f].Some? then HasField(row, f, fields[f].value)
    else if f !in fields && f in found then HasField(row, f, found[f])
    else SameField(before, row, f)
  }

  /** A value after an edit: what is given, or what was found, or nothing. */
  predicate EditedTo<T(==)>(e: Edit<T>, found: Option<T>, after: Option<T>) {
    && (e.To? ==> after == Some(e.value))
    && (e.Keep? ==> after == found)
    && (e.Unset? ==> after == None)
  }

  /** The session that an update makes of the one it found: the status is the one that the additional
      data names, or else the one asked for; all else is edited or kept. */
  ghost predicate Became(found: Session, id: Id, status: string, extra: Extra, v: Session) {
    && v.id == id
    && v.status == (if extra.status.Some? then extra.status.value else status)
    && v.journeyId == (if extra.journeyId.Some? then extra.journeyId.value else found.journeyId)
    && EditedTo(extra.contactId, found.contactId, v.contactId)
    && EditedTo(extra.variables, found.variables, v.variables)
    && EditedTo(extra.executionLogs, found.executionLogs, v.executionLogs)
    && EditedTo(extra.retryCount, found.retryCount, v.retryCount)
    && EditedTo(extra.maxRetries, found.maxRetries, v.maxRetries)
    && forall f :: CopyField(extra.fields, found.optional, v.optional, f)
  }

  lemma UpdatedIs(found: Session, id: Id, status: string, extra: Extra)
    ensures Became(found, id, status, extra, Updated(found, id, status, extra))
  {
    var v := Updated(found, id, status, extra);
    forall f ensures CopyField(extra.fields, found.optional, v.optional, f) {
      assert f in Given(extra.fields) <==> f in extra.fields && extra.fields[f].Some?;
    }
  }

  /** After an update that works, the copy in Redis is the session found, edited, and the row is the same,
      filled in. No other row changes. */
  lemma UpdateStoresTheSession(s: Sessions, id: Id, status: string, extra: Extra, calls: UpdateCalls) returns (v: Session)
    requires UpdateWorks(s, id, status, extra, calls)
    ensures Became(LookupSession(s, id, calls).value.value, id, status, extra, v)
    ensures var s', k := AfterUpdateStatus(s, id, status, extra, calls), Key("", id);
            && id in s'.store.rows && s'.store.rows == s.store.rows[id := s'.store.rows[id]]
            && StoredAs(s.store.rows, v, s'.store.rows[id])
            && (calls.store.put.redisWrite ==> k in s'.store.redis && CopiedAs(v, s'.store.redis[k]))
  {
    var found, s1 := LookupSession(s, id, calls).value.value, AfterLookup(s, id, calls);
    v := Updated(found, id, status, extra);
    UpdatedIs(found, id, status, extra);
    SetWorksIff(s1, v, calls.store);
    SetStores(s1, v, calls.store);
    IndexWriteOnly(AfterSetSession(s1, v, calls.store), id, found.contactId, status, calls.index);
  }

  lemma RowFieldIs(rows: map<Id, Session>, v: Session, row: Session, fields: map<string, Option<string>>, found: map<string, string>, f: string)
    requires StoredAs(rows, v, row) && CopyField(fields, found, v.optional, f)
    ensures RowField(fields, found, FieldsOf(rows, v.id), row.optional, f)
  {
  }

  /** Field by field: the copy and the row have the values that the update names; a field that it clears
      is gone from the copy and stays in the row; and the copies of other sessions stay. */
  lemma UpdateWritesTheFields(s: Sessions, id: Id, status: string, extra: Extra, calls: UpdateCalls)
    requires UpdateWorks(s, id, status, extra, calls) && calls.store.put.redisWrite
    ensures var found := LookupSession(s, id, calls).value.value;
            var s', k := AfterUpdateStatus(s, id, status, extra, calls), Key("", id);
            && id in s'.store.rows && k in s'.store.redis
            && (forall f :: CopyField(extra.fields, found.optional, s'.store.redis[k].optional, f))
            && (forall f :: RowField(extra.fields, found.optional, FieldsOf(s.store.rows, id), s'.store.rows[id].optional, f))
  {
    var v := UpdateStoresTheSession(s, id, status, extra, calls);
    var found := LookupSession(s, id, calls).value.value;
    var s' := AfterUpdateStatus(s, id, status, extra, calls);
    forall f
      ensures CopyField(extra.fields, found.optional, s'.store.redis[Key("", id)].optional, f)
      ensures RowField(extra.fields, found.optional, FieldsOf(s.store.rows, id), s'.store.rows[id].optional, f)
    {
      assert CopyField(extra.fields, found.optional, v.optional, f);
      assert SameField(v.optional, s'.store.redis[Key("", id)].optional, f);
      RowFieldIs(s.store.rows, v, s'.store.rows[id], extra.fields, found.optional, f);
    }
  }

  /** The contact that the session has after an update. */
  function ContactAfter(extra: Extra, found: Session): Option<ContactId> {
    match extra.contactId
    case To(c) => Some(c)
    case Unset => None
    case Keep => found.contactId
  }

  /** An update succeeds exactly if its lookup answers and, where it finds a session, Postgres takes it. A
      session that does not exist is no failure. */
  lemma UpdateAnswersIff(s: Sessions, id: Id, status: string, extra: Extra, calls: UpdateCalls)
    ensures UpdateAnswers(s, id, status, extra, calls) <==>
              var found := LookupSession(s, id, calls);
              found.Some? &&
              (found.value.Some? ==>
                 && calls.store.save == Ok
                 && var contact := ContactAfter(extra, found.value.value);
                    if contact.Some? then contact.value != "" && calls.store.ensure == Ok else id in s.store.rows)
  {
    var found := LookupSession(s, id, calls);
    if found.Some? && found.value.Some? {
      SetWorksIff(AfterLookup(s, id, calls), Updated(found.value.value, id, status, extra), calls.store);
    }
  }

  /** One that fails leaves the waiting index alone, and the edited session in Redis if it had found one;
      one that finds none changes nothing but what its lookup counts and caches. */
  lemma FailedUpdateLeavesTheIndex(s: Sessions, id: Id, status: string, extra: Extra, calls: UpdateCalls)
    requires !UpdateWorks(s, id, status, extra, calls)
    ensures var found, s' := LookupSession(s, id, calls), AfterUpdateStatus(s, id, status, extra, calls);
            && s'.waiting == s.waiting
            && (found.None? || found.value.None? ==> s'.store.rows == s.store.rows && s'.contacts == s.contacts)
            && (found.Some? && found.value.Some? && calls.store.put.redisWrite ==>
                  && Key("", id) in s'.store.redis
                  && exists v :: Became(found.value.value, id, status, extra, v) && CopiedAs(v, s'.store.redis[Key("", id)]))
  {
    var found, s1 := LookupSession(s, id, calls), AfterLookup(s, id, calls);
    if found.Some? && found.value.Some? {
      var v := Updated(found.value.value, id, status, extra);
      UpdatedIs(found.value.value, id, status, extra);
      SetStores(s1, v, calls.store);
    }
  }

  /** What a lookup answers while Redis has the copy. */
  lemma LookupShowsTheCopy(s: Sessions, id: Id, later: UpdateCalls)
    requires Key("", id) in s.store.redis && later.get.redisRead
    ensures LookupSession(s, id, later) == Some(Some(s.store.redis[Key("", id)]))
  {
  }

  // ---------------------------------------------------------------- waits

  /** A wait whose row update throws: nothing has changed, or the row alone, past the cache, if only the
      acknowledgement was lost; and the caller is told. */
  lemma FailedWaitChanges(s: Sessions, id: Id, status: string, fields: map<string, Option<string>>, calls: WaitCalls)
    requires calls.table != Ok
    ensures !WaitAnswers(s, id, status, fields, calls)
    ensures var s' := AfterWait(s, id, status, fields, calls);
            && s'.store.redis == s.store.redis && s'.waiting == s.waiting && s'.contacts == s.contacts
            && (calls.table == Failed || id !in s.store.rows ==> s' == s)
            && (calls.table == AckLost && id in s.store.rows ==>
                  && id in s'.store.rows && s'.store.rows == s.store.rows[id := s'.store.rows[id]]
                  && s'.store.rows[id].status == status && s'.store.rows[id].contactId == s.store.rows[id].contactId
                  && forall f :: if f in fields && fields[f].Some? then HasField(s'.store.rows[id].optional, f, fields[f].value)
                                 else SameField(s.store.rows[id].optional, s'.store.rows[id].optional, f))
  {
    assert forall f :: f in Given(fields) <==> f in fields && fields[f].Some?;
  }

  /** Completing a wait of a session that has no row changes nothing at all. */
  lemma NobodyWaits(s: Sessions, id: Id, result: WaitResult, calls: WaitCalls)
    requires id !in s.store.rows
    ensures After(s, CompleteWait(id, result, calls)) == s
  {
  }

  /** Once its row is written, a wait succeeds exactly if the lookup that follows answers and, where it finds
      a session, Postgres takes it once more. */
  lemma WaitAnswersIff(s: Sessions, id: Id, status: string, fields: map<string, Option<string>>, calls: WaitCalls)
    ensures WaitAnswers(s, id, status, fields, calls) <==>
              && calls.table == Ok
              && var found := LookupSession(RowWritten(s, id, status, fields), id, calls.update);
                 found.Some? &&
                 (found.value.Some? ==>
                    && calls.update.store.save == Ok
                    && var contact := found.value.value.contactId;
                       if contact.Some? then contact.value != "" && calls.update.store.ensure == Ok else id in s.store.rows)
  {
    UpdateAnswersIff(RowWritten(s, id, status, fields), id, status, Naming(status, fields), calls.update);
  }

  /** What a wait leaves of the session, in the row and in Redis. */
  ghost predicate Wrote(s: Sessions, id: Id, status: string, fields: map<string, Option<string>>, row: Session, copy: Session)
    requires id in s.store.rows
  {
    && row.status == status && row.contactId == s.store.rows[id].contactId
    && copy.status == status && copy.contactId == s.store.rows[id].contactId
    && (forall f :: CopyField(fields, s.store.rows[id].optional, copy.optional, f))
    && (forall f :: RowField(fields, s.store.rows[id].optional, s.store.rows[id].optional, row.optional, f))
  }

  /** A wait that is registered or completed, with its writes arriving. */
  lemma WaitWrites(s: Sessions, id: Id, status: string, fields: map<string, Option<string>>, calls: WaitCalls)
    requires Inv(s) && id in s.store.rows && calls.table == Ok && WaitIsSteady(s, id, status, fields, calls)
    ensures var s', k := AfterWait(s, id, status, fields, calls), Key("", id);
            && id in s'.store.rows && k in s'.store.redis
            && Wrote(s, id, status, fields, s'.store.rows[id], s'.store.redis[k])
  {
    WaitWritesTheStatus(s, id, status, fields, calls);
    WaitFindsTheFields(s, id, status, fields, calls.update);
    assert AfterWait(s, id, status, fields, calls) ==
           AfterUpdateStatus(RowWritten(s, id, status, fields), id, status, Naming(status, fields), calls.update);
    WrittenAndUpdated(s, id, status, fields, calls.update);
  }

  lemma WaitWritesTheStatus(s: Sessions, id: Id, status: string, fields: map<string, Option<string>>, calls: WaitCalls)
    requires Inv(s) && id in s.store.rows && calls.table == Ok && WaitIsSteady(s, id, status, fields, calls)
    ensures var s', k := AfterWait(s, id, status, fields, calls), Key("", id);
            && id in s'.store.rows && s'.store.rows[id].status == status
            && s'.store.rows[id].contactId == s.store.rows[id].contactId
            && k in s'.store.redis && s'.store.redis[k].status == status
            && s'.store.redis[k].contactId == s.store.rows[id].contactId
  {
    WaitFindsTheFields(s, id, status, fields, calls.update);
    var s1, extra := RowWritten(s, id, status, fields), Naming(status, fields);
    assert AfterWait(s, id, status, fields, calls) == AfterUpdateStatus(s1, id, status, extra, calls.update);
    var v := UpdateStoresTheSession(s1, id, status, extra, calls.update);
    assert s1.store.rows[id].contactId == s.store.rows[id].contactId;
  }

  lemma WrittenAndUpdated(s: Sessions, id: Id, status: string, fields: map<string, Option<string>>, calls: UpdateCalls)
    requires id in s.store.rows
    requires UpdateWorks(RowWritten(s, id, status, fields), id, status, Naming(status, fields), calls) && calls.store.put.redisWrite
    requires forall f :: f !in Given(fields) ==>
               SameField(s.store.rows[id].optional, LookupSession(RowWritten(s, id, status, fields), id, calls).value.value.optional, f)
    ensures var s' := AfterUpdateStatus(RowWritten(s, id, status, fields), id, status, Naming(status, fields), calls);
            var k := Key("", id);
            && id in s'.store.rows && k in s'.store.redis
            && (forall f :: CopyField(fields, s.store.rows[id].optional, s'.store.redis[k].optional, f))
            && (forall f :: RowField(fields, s.store.rows[id].optional, s.store.rows[id].optional, s'.store.rows[id].optional, f))
  {
    var s1, extra := RowWritten(s, id, status, fields), Naming(status, fields);
    var s' := AfterUpdateStatus(s1, id, status, extra, calls);
    UpdateWritesTheFields(s1, id, status, extra, calls);
    var before, found := s.store.rows[id].optional, LookupSession(s1, id, calls).value.value.optional;
    assert FieldsOf(s1.store.rows, id) == before + Given(fields);
    forall f { WaitField(fields, before, found, s'.store.rows[id].optional, s'.store.redis[Key("", id)].optional, f); }
  }

  /** The row was written past the cache before the update; apart from the named fields the session found
      is as the row was. */
  lemma WaitField(fields: map<string, Option<string>>, before: map<string, string>, found: map<string, string>,
                  row: map<string, string>, copy: map<string, string>, f: string)
    requires f !in Given(fields) ==> SameField(before, found, f)
    requires CopyField(fields, found, copy, f) && RowField(fields, found, before + Given(fields), row, f)
    ensures CopyField(fields, before, copy, f) && RowField(fields, before, before, row, f)
  {
    assert f in Given(fields) <==> f in fields && fields[f].Some?;
  }

  /** The session that the update finds, be it the copy from before or the row just written: apart from
      the named fields it is as the row was. */
  lemma WaitFindsTheFields(s: Sessions, id: Id, status: string, fields: map<string, Option<string>>, calls: UpdateCalls)
    requires Inv(s) && id in s.store.rows
    requires var found := LookupSession(RowWritten(s, id, status, fields), id, calls); found.Some? && found.value.Some?
    ensures var v := LookupSession(RowWritten(s, id, status, fields), id, calls).value.value;
            && v.contactId == s.store.rows[id].contactId
            && forall f :: f !in Given(fields) ==> SameField(s.store.rows[id].optional, v.optional, f)
  {
    var k := Key("", id);
    assert k in s.store.redis ==> View(CFG, s.store.rows, k.id) == Some(s.store.redis[k]);
  }

  /** Once a wait is registered, the row and, from Redis, any lookup say that the session waits, where
      and for what; all its other optional fields are as they were. */
  lemma RegisteredWaitShows(s: Sessions, id: Id, node: string, waitingFor: string, calls: WaitCalls, later: UpdateCalls)
    requires Inv(s) && id in s.store.rows && calls.table == Ok && later.get.redisRead
    requires IndexSteady(s, RegisterWait(id, node, waitingFor, calls))
    ensures var s' := After(s, RegisterWait(id, node, waitingFor, calls));
            var shown := LookupSession(s', id, later);
            && id in s'.store.rows && shown.Some? && shown.value.Some?
            && WaitsAt(s.store.rows[id], node, waitingFor, s'.store.rows[id])
            && WaitsAt(s.store.rows[id], node, waitingFor, shown.value.value)
  {
    var fields := Registering(node, waitingFor);
    WaitWrites(s, id, "waiting", fields, calls);
    var s', k := After(s, RegisterWait(id, node, waitingFor, calls)), Key("", id);
    LookupShowsTheCopy(s', id, later);
    WroteAWait(s, id, node, waitingFor, s'.store.rows[id], s'.store.redis[k]);
  }

  /** The session waits at the node for what is given, and is otherwise as it was. */
  ghost predicate WaitsAt(before: Session, node: string, waitingFor: string, v: Session) {
    && v.status == "waiting" && v.contactId == before.contactId
    && HasField(v.optional, "currentNodeId", node) && HasField(v.optional, "waitingFor", waitingFor)
    && forall f :: f != "currentNodeId" && f != "waitingFor" ==> SameField(before.optional, v.optional, f)
  }

  lemma WroteAWait(s: Sessions, id: Id, node: string, waitingFor: string, row: Session, copy: Session)
    requires id in s.store.rows && Wrote(s, id, "waiting", Registering(node, waitingFor), row, copy)
    ensures WaitsAt(s.store.rows[id], node, waitingFor, row) && WaitsAt(s.store.rows[id], node, waitingFor, copy)
  {
    var fields, before := Registering(node, waitingFor), s.store.rows[id].optional;
    assert CopyField(fields, before, copy.optional, "currentNodeId") && CopyField(fields, before, copy.optional, "waitingFor");
    assert RowField(fields, before, before, row.optional, "currentNodeId") && RowField(fields, before, before, row.optional, "waitingFor");
    forall f | f != "currentNodeId" && f != "waitingFor"
      ensures SameField(before, row.optional, f) && SameField(before, copy.optional, f)
    {
      assert CopyField(fields, before, copy.optional, f) && RowField(fields, before, before, row.optional, f);
    }
  }

  /** The index of its contact lists a session once its wait is registered. */
  lemma RegisteredWaitIsIndexed(s: Sessions, id: Id, node: string, waitingFor: string, calls: WaitCalls)
    requires Inv(s) && id in s.store.rows && calls.table == Ok
    requires IndexSteady(s, RegisterWait(id, node, waitingFor, calls))
    ensures var contact := s.store.rows[id].contactId;
            contact.Some? && id in Waiting(After(s, RegisterWait(id, node, waitingFor, calls)), contact.value)
  {
    WaitWritesTheStatus(s, id, "waiting", Registering(node, waitingFor), calls);
    StepKeepsIndexInv(s, RegisterWait(id, node, waitingFor, calls));
    ListedIff(After(s, RegisterWait(id, node, waitingFor, calls)), id, s.store.rows[id].contactId.value);
  }

  /** No contact's index lists it any more once the wait is completed. */
  lemma CompletedWaitIsForgotten(s: Sessions, id: Id, result: WaitResult, calls: WaitCalls, c: ContactId)
    requires Inv(s) && id in s.store.rows && calls.table == Ok
    requires IndexSteady(s, CompleteWait(id, result, calls))
    ensures id !in Waiting(After(s, CompleteWait(id, result, calls)), c)
  {
    WaitWritesTheStatus(s, id, CompletedStatus(result), Completing(result), calls);
    StepKeepsIndexInv(s, CompleteWait(id, result, calls));
    ListedIff(After(s, CompleteWait(id, result, calls)), id, c);
  }

  lemma ListedIff(s: Sessions, id: Id, c: ContactId)
    requires IndexInv(s) && id in s.store.rows
    ensures id in Waiting(s, c) <==>
              s.store.rows[id].contactId == Some(c)
              && (s.store.rows[id].status == "waiting" || s.store.rows[id].status == "WAITING")
  {
    assert id in Waiting(s, c) <==> WaitsFor(s.store.rows, id) == Some(c);
  }

  /** Once a wait is completed, lookups from Redis show the session active and no longer waiting, or, if
      it was cancelled, cancelled with its time. */
  lemma CompletedWaitShows(s: Sessions, id: Id, result: WaitResult, calls: WaitCalls, later: UpdateCalls)
    requires Inv(s) && id in s.store.rows && calls.table == Ok && later.get.redisRead
    requires IndexSteady(s, CompleteWait(id, result, calls))
    ensures var shown := LookupSession(After(s, CompleteWait(id, result, calls)), id, later);
            && shown.Some? && shown.value.Some? && shown.value.value.contactId == s.store.rows[id].contactId
            && (result.Cancelled? ==> shown.value.value.status == "cancelled"
                                      && HasField(shown.value.value.optional, "completedAt", result.at))
            && (!result.Cancelled? ==> shown.value.value.status == "active" && "waitingFor" !in shown.value.value.optional)
  {
    var fields := Completing(result);
    WaitWrites(s, id, CompletedStatus(result), fields, calls);
    var s', k := After(s, CompleteWait(id, result, calls)), Key("", id);
    LookupShowsTheCopy(s', id, later);
    assert CopyField(fields, s.store.rows[id].optional, s'.store.redis[k].optional, "waitingFor");
    assert CopyField(fields, s.store.rows[id].optional, s'.store.redis[k].optional, "completedAt");
  }
}
