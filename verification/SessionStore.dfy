/** Journey sessions, written through to Postgres: `JourneySessionCacheService`. Redis is written
    first, then a contact row is made sure of, then the session row; a separate index lists the
    waiting sessions of each contact. */
module SessionStore {
  import opened Prelude
  import opened BaseCache
  import opened CacheCoherence

  type ContactId = string

  /** `optional` holds the fields that may be undefined (current node, workflow, times, error), by
      name; a field that is undefined has no entry. */
  datatype Session = Session(
    id: Id, journeyId: string, contactId: Option<ContactId>, status: string,
    variables: Option<string>, executionLogs: Option<string>,
    retryCount: Option<nat>, maxRetries: Option<nat>,
    optional: map<string, string>)

  function Or<T>(x: Option<T>, default: T): Option<T> { if x.Some? then x else Some(default) }

  /** `transformToCached`. */
  function ToCached(v: Session): Session {
    v.(variables := Or(v.variables, "{}"), executionLogs := Or(v.executionLogs, "[]"))
  }

  /** Sessions are cached in Redis only. */
  const CFG: Config<Session, Session> := Config(ToCached, (v: Session) => v.id, false)

  /** A contact row; `""` is one that holds nothing but its id. */
  type Contacts = map<ContactId, string>

  datatype Sessions = Sessions(store: Store<Session, Session>, contacts: Contacts, waiting: map<ContactId, set<Id>>)

  function Waiting(s: Sessions, c: ContactId): set<Id> { if c in s.waiting then s.waiting[c] else {} }

  predicate IsWaiting(status: string) { status == "WAITING" || status == "waiting" }

  // ---------------------------------------------------------------- persistToDatabase

  /** The row after a save. Undefined fields are skipped, so what the row held in them stays. */
  function Merged(rows: map<Id, Session>, v: Session): Session {
    var kept := if v.id in rows then rows[v.id].optional else map[];
    v.(contactId := if v.contactId.None? && v.id in rows then rows[v.id].contactId else v.contactId,
       variables := Or(v.variables, "{}"), executionLogs := Or(v.executionLogs, "[]"),
       retryCount := Or(v.retryCount, 0), maxRetries := Or(v.maxRetries, 3),
       optional := kept + v.optional)
  }

  predicate NamesContact(v: Session) { v.contactId.Some? && v.contactId.value != "" }

  /** Postgres accepts the row: a new session names a contact, an old one may leave it out. */
  predicate Storable(s: Sessions, v: Session) {
    if v.contactId.Some? then v.contactId.value != "" && v.contactId.value in s.contacts
    else v.id in s.store.rows
  }

  datatype StoreCalls = StoreCalls(put: SetCalls, ensure: Outcome, save: Outcome)

  /** `ensureContactRow`: INSERT ... ON CONFLICT DO NOTHING. */
  function WithContact(s: Sessions, v: Session, o: Outcome): Sessions {
    if o == Failed || !NamesContact(v) || v.contactId.value in s.contacts then s
    else s.(contacts := s.contacts[v.contactId.value := ""])
  }

  function WithRow(s: Sessions, v: Session, o: Outcome): Sessions {
    if o == Failed || !Storable(s, v) then s
    else s.(store := s.store.(rows := s.store.rows[v.id := Merged(s.store.rows, v)]))
  }

  predicate EnsureWorks(v: Session, calls: StoreCalls) { NamesContact(v) ==> calls.ensure == Ok }

  /** The session reached Postgres and the caller was told. */
  predicate SetWorks(s: Sessions, v: Session, calls: StoreCalls) {
    EnsureWorks(v, calls) && calls.save == Ok && Storable(WithContact(s, v, Ok), v)
  }

  function AfterPersist(s: Sessions, v: Session, calls: StoreCalls): Sessions {
    var s' := WithContact(s, v, calls.ensure);
    if EnsureWorks(v, calls) then WithRow(s', v, calls.save) else s'
  }

  /** `set`: Redis first, then Postgres. */
  function AfterSetSession(s: Sessions, v: Session, calls: StoreCalls): Sessions {
    AfterPersist(s.(store := AfterSet(CFG, s.store, "", v, calls.put)), v, calls)
  }

  // ---------------------------------------------------------------- status updates

  /** What additional data does to a field that may be undefined. */
  datatype Edit<T> = Keep | Unset | To(value: T)

  function Edited<T>(e: Edit<T>, x: Option<T>): Option<T> {
    match e case Keep => x case Unset => None case To(v) => Some(v)
  }

  /** The additional data of an update; `fields` are the optional fields it names, without a value
      where it clears them. */
  datatype Extra = Extra(
    status: Option<string>, journeyId: Option<string>, contactId: Edit<ContactId>,
    variables: Edit<string>, executionLogs: Edit<string>, retryCount: Edit<nat>, maxRetries: Edit<nat>,
    fields: map<string, Option<string>>)

  /** Additional data that repeats a status and names optional fields. */
  function Naming(status: string, fields: map<string, Option<string>>): Extra {
    Extra(Some(status), None, Keep, Keep, Keep, Keep, Keep, fields)
  }

  function Cleared(fields: map<string, Option<string>>): set<string> { set f | f in fields && fields[f].None? }

  /** The fields that are given a value. */
  function Given(fields: map<string, Option<string>>): map<string, string> {
    map f | f in fields && fields[f].Some? :: fields[f].value
  }

  function Updated(v: Session, id: Id, status: string, extra: Extra): Session {
    Session(id,
            if extra.journeyId.Some? then extra.journeyId.value else v.journeyId,
            Edited(extra.contactId, v.contactId),
            if extra.status.Some? then extra.status.value else status,
            Edited(extra.variables, v.variables), Edited(extra.executionLogs, v.executionLogs),
            Edited(extra.retryCount, v.retryCount), Edited(extra.maxRetries, v.maxRetries),
            v.optional - Cleared(extra.fields) + Given(extra.fields))
  }

  datatype UpdateCalls = UpdateCalls(get: GetCalls, store: StoreCalls, index: bool)

  function AfterIndex(s: Sessions, id: Id, c: Option<ContactId>, status: string, works: bool): Sessions {
    var key := if c.Some? then c.value else "undefined";
    if !works then s
    else if IsWaiting(status) then s.(waiting := s.waiting[key := Waiting(s, key) + {id}])
    else s.(waiting := s.waiting[key := Waiting(s, key) - {id}])
  }

  function LookupSession(s: Sessions, id: Id, calls: UpdateCalls): Option<Option<Session>> {
    GetAnswer(CFG, s.store, Key("", id), calls.get)
  }

  function AfterLookup(s: Sessions, id: Id, calls: UpdateCalls): Sessions {
    s.(store := AfterGet(CFG, s.store, Key("", id), calls.get))
  }

  function AfterUpdateStatus(s: Sessions, id: Id, status: string, extra: Extra, calls: UpdateCalls): Sessions {
    var found, s1 := LookupSession(s, id, calls), AfterLookup(s, id, calls);
    if found.None? || found.value.None? then s1
    else
      var v := Updated(found.value.value, id, status, extra);
      var s2 := AfterSetSession(s1, v, calls.store);
      if SetWorks(s1, v, calls.store) then AfterIndex(s2, id, found.value.value.contactId, status, calls.index) else s2
  }

  /** The caller of an update sees no exception: there was nothing to update, or it was stored. */
  predicate UpdateAnswers(s: Sessions, id: Id, status: string, extra: Extra, calls: UpdateCalls) {
    var found := LookupSession(s, id, calls);
    found.Some? && (found.value.Some? ==> UpdateWorks(s, id, status, extra, calls))
  }

  /** The session is found and its new state is stored. */
  predicate UpdateWorks(s: Sessions, id: Id, status: string, extra: Extra, calls: UpdateCalls) {
    var found := LookupSession(s, id, calls);
    found.Some? && found.value.Some?
    && SetWorks(AfterLookup(s, id, calls), Updated(found.value.value, id, status, extra), calls.store)
  }

  /** A write of the table that goes past the cache; undefined fields are skipped. */
  function RowWritten(s: Sessions, id: Id, status: string, fields: map<string, Option<string>>): Sessions {
    if id !in s.store.rows then s
    else
      var row := s.store.rows[id];
      s.(store := s.store.(rows := s.store.rows[id := row.(status := status, optional := row.optional + Given(fields))]))
  }

  datatype WaitCalls = WaitCalls(table: Outcome, update: UpdateCalls)

  /** How `registerWait` and `completeWait` change a session: the row first, past the cache, and then
      through the cache with the same data. */
  function AfterWait(s: Sessions, id: Id, status: string, fields: map<string, Option<string>>, calls: WaitCalls): Sessions {
    if calls.table == Failed then s
    else
      var s1 := RowWritten(s, id, status, fields);
      if calls.table == AckLost then s1 else AfterUpdateStatus(s1, id, status, Naming(status, fields), calls.update)
  }

  predicate WaitAnswers(s: Sessions, id: Id, status: string, fields: map<string, Option<string>>, calls: WaitCalls) {
    calls.table == Ok && UpdateAnswers(RowWritten(s, id, status, fields), id, status, Naming(status, fields), calls.update)
  }

  function Registering(node: string, waitingFor: string): map<string, Option<string>> {
    map["currentNodeId" := Some(node), "waitingFor" := Some(waitingFor)]
  }

  datatype WaitResult = Success | Timeout | Cancelled(at: string)

  function CompletedStatus(result: WaitResult): string { if result.Cancelled? then "cancelled" else "active" }

  function Completing(result: WaitResult): map<string, Option<string>> {
    if result.Cancelled? then map["completedAt" := Some(result.at)] else map["waitingFor" := None]
  }

  /** The session that records a journey that could not be started. */
  function FailedDispatch(id: Id, journey: string, contact: ContactId, optional: map<string, string>): Session {
    Session(id, journey, Some(contact), "failed", Some("{}"), Some("[]"), Some(0), Some(3), optional)
  }

  // ---------------------------------------------------------------- the service

  class ContactsTable {
    var contacts: Contacts
    constructor () ensures contacts == map[] { contacts := map[]; }
  }

  class JourneySessionCacheService {
    const repository: Repository<Session>
    const contactsTable: ContactsTable
    const base: BaseCacheService<Session, Session>
    var waiting: map<ContactId, set<Id>>

    constructor (repository: Repository<Session>, contactsTable: ContactsTable)
      ensures this.repository == repository && this.contactsTable == contactsTable && Wired() && fresh(base)
      ensures waiting == map[]
    {
      this.repository, this.contactsTable := repository, contactsTable;
      this.base := new BaseCacheService(CFG, repository);
      waiting := map[];
    }

    ghost predicate Wired() {
      base.repository == repository && base.cfg == CFG
    }

    function Value(): Sessions
      reads this, base, repository, base.repository, contactsTable
    {
      Sessions(base.Value(), contactsTable.contacts, waiting)
    }

    /** False when the caller sees an exception. */
    method SetSession(v: Session, calls: StoreCalls) returns (ok: bool)
      requires Wired()
      modifies base, repository, contactsTable
      ensures ok == SetWorks(old(Value()), v, calls)
      ensures Value() == AfterSetSession(old(Value()), v, calls)
    {
      base.Put("", v, calls.put);
      var ensured := EnsureContactRow(v, calls.ensure);
      if !ensured { return false; }
      if calls.save == Failed || !Storable(Value(), v) { return false; }
      repository.rows := repository.rows[v.id := Merged(repository.rows, v)];
      ok := calls.save == Ok;
    }

    method EnsureContactRow(v: Session, o: Outcome) returns (ok: bool)
      modifies contactsTable
      ensures ok == (NamesContact(v) ==> o == Ok)
      ensures Value() == WithContact(old(Value()), v, o)
    {
      if !NamesContact(v) { return true; }
      if o == Failed { return false; }
      if v.contactId.value !in contactsTable.contacts {
        contactsTable.contacts := contactsTable.contacts[v.contactId.value := ""];
      }
      ok := o == Ok;
    }

    /** `updateSessionStatus`; does nothing when the session does not exist. */
    method UpdateSessionStatus(id: Id, status: string, extra: Extra, calls: UpdateCalls) returns (ok: bool)
      requires Wired()
      modifies this, base, repository, contactsTable
      ensures Value() == AfterUpdateStatus(old(Value()), id, status, extra, calls)
      ensures ok == UpdateAnswers(old(Value()), id, status, extra, calls)
    {
      var found := base.Get("", id, calls.get);
      if found.None? { return false; }
      if found.value.None? { return true; }
      var session := found.value.value;
      ok := SetSession(Updated(session, id, status, extra), calls.store);
      if ok { TrackWaiting(id, session.contactId, status, calls.index); }
    }

    method TrackWaiting(id: Id, c: Option<ContactId>, status: string, works: bool)
      modifies this
      ensures Value() == AfterIndex(old(Value()), id, c, status, works)
    {
      var key := if c.Some? then c.value else "undefined";
      if works {
        var ids := if key in waiting then waiting[key] else {};
        waiting := waiting[key := if IsWaiting(status) then ids + {id} else ids - {id}];
      }
    }

    method CreateFailedDispatchSession(id: Id, journey: string, contact: ContactId, optional: map<string, string>, calls: StoreCalls)
      returns (ok: bool)
      requires Wired()
      modifies base, repository, contactsTable
      ensures Value() == AfterSetSession(old(Value()), FailedDispatch(id, journey, contact, optional), calls)
      ensures ok == SetWorks(old(Value()), FailedDispatch(id, journey, contact, optional), calls)
    {
      ok := SetSession(
        Session(id, journey, Some(contact), "failed", Some("{}"), Some("[]"), Some(0), Some(3), optional), calls);
    }
  }

  class WaitRegistryService {
    const sessions: JourneySessionCacheService

    constructor (sessions: JourneySessionCacheService)
      ensures this.sessions == sessions
    {
      this.sessions := sessions;
    }

    method RegisterWait(id: Id, node: string, waitingFor: string, calls: WaitCalls) returns (ok: bool)
      requires sessions.Wired()
      modifies sessions, sessions.base, sessions.repository, sessions.contactsTable
      ensures sessions.Value() == AfterWait(old(sessions.Value()), id, "waiting", Registering(node, waitingFor), calls)
      ensures ok == WaitAnswers(old(sessions.Value()), id, "waiting", Registering(node, waitingFor), calls)
    {
      ok := Wait(id, "waiting", Registering(node, waitingFor), calls);
    }

    /** Does nothing when the session does not exist; `rowRead` is the lookup of it. */
    method CompleteWait(id: Id, result: WaitResult, rowRead: bool, calls: WaitCalls) returns (ok: bool)
      requires sessions.Wired()
      modifies sessions, sessions.base, sessions.repository, sessions.contactsTable
      ensures sessions.Value() ==
                if !rowRead || id !in old(sessions.Value()).store.rows then old(sessions.Value())
                else AfterWait(old(sessions.Value()), id, CompletedStatus(result), Completing(result), calls)
      ensures ok <==> rowRead && (id in old(sessions.Value()).store.rows ==>
                                    WaitAnswers(old(sessions.Value()), id, CompletedStatus(result), Completing(result), calls))
    {
      if !rowRead { return false; }
      if id !in sessions.repository.rows { return true; }
      ok := Wait(id, CompletedStatus(result), Completing(result), calls);
    }

    method Wait(id: Id, status: string, fields: map<string, Option<string>>, calls: WaitCalls) returns (ok: bool)
      requires sessions.Wired()
      modifies sessions, sessions.base, sessions.repository, sessions.contactsTable
      ensures sessions.Value() == AfterWait(old(sessions.Value()), id, status, fields, calls)
      ensures ok == WaitAnswers(old(sessions.Value()), id, status, fields, calls)
    {
      if calls.table == Failed { return false; }
      if id in sessions.repository.rows {
        var row := sessions.repository.rows[id];
        sessions.repository.rows :=
          sessions.repository.rows[id := row.(status := status, optional := row.optional + Given(fields))];
      }
      if calls.table == AckLost { return false; }
      ok := sessions.UpdateSessionStatus(id, status, Naming(status, fields), calls.update);
    }
  }

  // ---------------------------------------------------------------- contacts, over any run

  datatype Request =
    | Set(v: Session, calls: StoreCalls)
    | UpdateStatus(id: Id, status: string, extra: Extra, update: UpdateCalls)
    | RegisterWait(id: Id, node: string, waitingFor: string, wait: WaitCalls)
    | CompleteWait(id: Id, result: WaitResult, wait: WaitCalls)
    | Lookup(id: Id, update: UpdateCalls)
    | ValuesExpire(keys: set<Key>)

  function After(s: Sessions, r: Request): Sessions {
    match r
    case Set(v, calls) => AfterSetSession(s, v, calls)
    case UpdateStatus(id, status, extra, calls) => AfterUpdateStatus(s, id, status, extra, calls)
    case RegisterWait(id, node, waitingFor, calls) => AfterWait(s, id, "waiting", Registering(node, waitingFor), calls)
    case CompleteWait(id, result, calls) =>
      if id in s.store.rows then AfterWait(s, id, CompletedStatus(result), Completing(result), calls) else s
    case Lookup(id, calls) => AfterLookup(s, id, calls)
    case ValuesExpire(keys) => s.(store := s.store.(redis := s.store.redis - keys))
  }

  function Serve(s: Sessions, rs: seq<Request>): Sessions
    decreases |rs|
  {
    if rs == [] then s else Serve(After(s, rs[0]), rs[1..])
  }

  /** The foreign key. */
  ghost predicate ContactsExist(s: Sessions) {
    forall id :: id in s.store.rows ==>
                   s.store.rows[id].contactId.Some? && s.store.rows[id].contactId.value in s.contacts
  }

  ghost predicate ContactsKept(before: Contacts, after: Contacts) {
    forall c :: c in before ==> c in after && after[c] == before[c]
  }

  /** Whether a `set` changes the row. */
  predicate Stores(s: Sessions, v: Session, calls: StoreCalls) {
    EnsureWorks(v, calls) && calls.save != Failed && Storable(WithContact(s, v, calls.ensure), v)
  }

  /** The effect of a `set`, part by part. */
  lemma SetEffect(s: Sessions, v: Session, calls: StoreCalls)
    ensures var s', put := AfterSetSession(s, v, calls), AfterSet(CFG, s.store, "", v, calls.put);
            && s'.waiting == s.waiting
            && s'.contacts == WithContact(s, v, calls.ensure).contacts
            && s'.store == put.(rows := if Stores(s, v, calls) then s.store.rows[v.id := Merged(s.store.rows, v)] else s.store.rows)
  {
  }

  lemma SetKeepsContacts(s: Sessions, v: Session, calls: StoreCalls)
    requires ContactsExist(s)
    ensures var s' := AfterSetSession(s, v, calls);
            ContactsExist(s') && ContactsKept(s.contacts, s'.contacts)
  {
    SetEffect(s, v, calls);
  }

  lemma UpdateKeepsContacts(s: Sessions, id: Id, status: string, extra: Extra, calls: UpdateCalls)
    requires ContactsExist(s)
    ensures var s' := AfterUpdateStatus(s, id, status, extra, calls);
            ContactsExist(s') && ContactsKept(s.contacts, s'.contacts)
  {
    var found, s1 := LookupSession(s, id, calls), AfterLookup(s, id, calls);
    assert ContactsExist(s1);
    if found.Some? && found.value.Some? {
      SetKeepsContacts(s1, Updated(found.value.value, id, status, extra), calls.store);
    }
  }

  lemma WaitKeepsContacts(s: Sessions, id: Id, status: string, fields: map<string, Option<string>>, calls: WaitCalls)
    requires ContactsExist(s)
    ensures var s' := AfterWait(s, id, status, fields, calls);
            ContactsExist(s') && ContactsKept(s.contacts, s'.contacts)
  {
    var s1 := RowWritten(s, id, status, fields);
    assert ContactsExist(s1) && s1.contacts == s.contacts;
    UpdateKeepsContacts(s1, id, status, Naming(status, fields), calls.update);
  }

  /** Whatever fails, every stored session's contact exists and no contact row that exists is ever
      altered. */
  lemma {:induction false} ContactsAreSafe(s: Sessions, rs: seq<Request>)
    requires ContactsExist(s)
    ensures ContactsExist(Serve(s, rs)) && ContactsKept(s.contacts, Serve(s, rs).contacts)
    decreases |rs|
  {
    if rs != [] {
      match rs[0] {
        case Set(v, calls) => SetKeepsContacts(s, v, calls);
        case UpdateStatus(id, status, extra, calls) => UpdateKeepsContacts(s, id, status, extra, calls);
        case RegisterWait(id, node, waitingFor, calls) =>
          WaitKeepsContacts(s, id, "waiting", Registering(node, waitingFor), calls);
        case CompleteWait(id, result, calls) =>
          WaitKeepsContacts(s, id, CompletedStatus(result), Completing(result), calls);
        case Lookup(_, _) =>
        case ValuesExpire(_) =>
      }
      ContactsAreSafe(After(s, rs[0]), rs[1..]);
    }
  }

  // ---------------------------------------------------------------- Redis and Postgres

  /** The session leaves nothing for Postgres to keep or to fill in: it names its contact and its
      counters, and gives every optional field that the row already has. */
  predicate Complete(rows: map<Id, Session>, v: Session) {
    && v.contactId.Some? && v.retryCount.Some? && v.maxRetries.Some?
    && (v.id in rows ==> rows[v.id].optional.Keys <= v.optional.Keys)
  }

  lemma MergedShowsIff(rows: map<Id, Session>, v: Session)
    ensures ToCached(Merged(rows, v)) == ToCached(v) <==>
              && (v.contactId.Some? || v.id !in rows || rows[v.id].contactId.None?)
              && v.retryCount.Some? && v.maxRetries.Some?
              && (v.id in rows ==> rows[v.id].optional.Keys <= v.optional.Keys)
  {
    var kept := if v.id in rows then rows[v.id].optional else map[];
    if kept.Keys <= v.optional.Keys {
      assert kept + v.optional == v.optional;
    } else {
      assert (kept + v.optional).Keys == kept.Keys + v.optional.Keys;
    }
  }

  /** Redis shows the rows, the one of `id` perhaps excepted. */
  ghost predicate FreshBut(s: Sessions, id: Id) {
    forall k :: k in s.store.redis && k.scope == "" && k.id != id ==>
                  View(CFG, s.store.rows, k.id) == Some(s.store.redis[k])
  }

  /** After a `set` that succeeds, Redis and Postgres agree exactly if the session was complete,
      whatever they held of it before. So a field that is cleared by leaving it undefined vanishes from
      Redis and stays in Postgres, to come back when the Redis copy expires. */
  lemma SetAgreesIff(s: Sessions, v: Session, calls: StoreCalls)
    requires FreshBut(s, v.id) && ContactsExist(s)
    requires SetWorks(s, v, calls) && calls.put.redisWrite
    ensures Coherent(CFG, AfterSetSession(s, v, calls).store, "") <==> Complete(s.store.rows, v)
  {
    var s' := AfterSetSession(s, v, calls);
    var row := Merged(s.store.rows, v);
    SetEffect(s, v, calls);
    MergedShowsIff(s.store.rows, v);
    PutShowsIff(s, v.id, row, ToCached(v));
    ByLayer(CFG, s'.store, "");
  }

  lemma PutShowsIff(s: Sessions, id: Id, row: Session, shown: Session)
    requires FreshBut(s, id)
    ensures Fresh(CFG, s.store.redis[Key("", id) := shown], s.store.rows[id := row], "") <==> ToCached(row) == shown
  {
    var k, layer', rows' := Key("", id), s.store.redis[Key("", id) := shown], s.store.rows[id := row];
    assert forall x: Key :: x.scope == "" && x != k ==> View(CFG, rows', x.id) == View(CFG, s.store.rows, x.id);
    assert View(CFG, rows', k.id) == Some(ToCached(row));
  }

  /** Attempts to store one session, one after another. */
  function AfterAttempts(s: Sessions, v: Session, attempts: seq<StoreCalls>): Sessions
    decreases |attempts|
  {
    if attempts == [] then s else AfterAttempts(AfterSetSession(s, v, attempts[0]), v, attempts[1..])
  }

  lemma MergedTwice(rows: map<Id, Session>, v: Session)
    ensures Merged(rows[v.id := Merged(rows, v)], v) == Merged(rows, v)
  {
  }

  /** A failed attempt may have made the contact row, and may have stored the session. */
  lemma RetryStores(s: Sessions, v: Session, failed: StoreCalls, last: StoreCalls)
    requires SetWorks(s, v, last)
    ensures var m := AfterSetSession(s, v, failed);
            && SetWorks(m, v, last)
            && WithContact(m, v, last.ensure).contacts == WithContact(s, v, last.ensure).contacts
            && m.store.rows[v.id := Merged(m.store.rows, v)] == s.store.rows[v.id := Merged(s.store.rows, v)]
  {
    SetEffect(s, v, failed);
    MergedTwice(s.store.rows, v);
  }

  lemma PutTwice(s: Store<Session, Session>, m: Store<Session, Session>, v: Session, first: SetCalls, rows: map<Id, Session>)
    requires m == AfterSet(CFG, s, "", v, first).(rows := rows)
    ensures AfterSet(CFG, m, "", v, SetCalls(true, true)).(rows := s.rows) == AfterSet(CFG, s, "", v, SetCalls(true, true))
  {
    var k := Key("", v.id);
    assert s.redis[k := ToCached(v)][k := ToCached(v)] == s.redis[k := ToCached(v)];
    assert Indexed(m, "") + {v.id} == Indexed(s, "") + {v.id};
    assert m.index["" := Indexed(m, "") + {v.id}] == s.index["" := Indexed(s, "") + {v.id}];
  }

  /** One failed attempt makes no difference to the one that succeeds. */
  lemma RetryAbsorbs(s: Sessions, v: Session, failed: StoreCalls, last: StoreCalls)
    requires last.put == SetCalls(true, true) && SetWorks(s, v, last)
    ensures var m := AfterSetSession(s, v, failed);
            SetWorks(m, v, last) && AfterSetSession(m, v, last) == AfterSetSession(s, v, last)
  {
    var m := AfterSetSession(s, v, failed);
    SetEffect(s, v, failed);
    SetEffect(s, v, last);
    SetEffect(m, v, last);
    RetryStores(s, v, failed, last);
    WorksStores(s, v, last);
    WorksStores(m, v, last);
    PutTwice(s.store, m.store, v, failed.put, m.store.rows);
  }

  lemma WorksStores(s: Sessions, v: Session, calls: StoreCalls)
    requires SetWorks(s, v, calls)
    ensures Stores(s, v, calls)
  {
  }

  lemma RowStored(s: Sessions, v: Session, calls: StoreCalls)
    requires SetWorks(s, v, calls)
    ensures var s' := AfterSetSession(s, v, calls);
            s'.store.rows == s.store.rows[v.id := Merged(s.store.rows, v)] && s'.waiting == s.waiting
  {
    SetEffect(s, v, calls);
    WorksStores(s, v, calls);
  }

  /** Retrying until a write succeeds ends where one successful write would have ended, wherever the
      attempts before it broke off. */
  lemma {:induction false} RetriesComplete(s: Sessions, v: Session, failed: seq<StoreCalls>, last: StoreCalls)
    requires last.put == SetCalls(true, true) && SetWorks(s, v, last)
    ensures AfterAttempts(s, v, failed + [last]) == AfterSetSession(s, v, last)
    decreases |failed|
  {
    if failed == [] {
      assert failed + [last] == [last] && [last][1..] == [];
      assert AfterAttempts(AfterSetSession(s, v, last), v, []) == AfterSetSession(s, v, last);
    } else {
      assert (failed + [last])[1..] == failed[1..] + [last];
      RetryAbsorbs(s, v, failed[0], last);
      RetriesComplete(AfterSetSession(s, v, failed[0]), v, failed[1..], last);
    }
  }

  // ---------------------------------------------------------------- the waiting index

  /** The contact under which the session should be indexed, if it is waiting. */
  function WaitsFor(rows: map<Id, Session>, id: Id): Option<ContactId> {
    if id in rows && IsWaiting(rows[id].status) then rows[id].contactId else None
  }

  ghost predicate WaitingExact(s: Sessions) {
    forall c, id :: id in Waiting(s, c) <==> WaitsFor(s.store.rows, id) == Some(c)
  }

  /** The contact for which the session would wait once it is stored. */
  function WouldWaitFor(rows: map<Id, Session>, v: Session): Option<ContactId> {
    if IsWaiting(v.status) then Merged(rows, v).contactId else None
  }

  /** A plain `set` does not touch the index, which stays exact exactly if the session is not stored, or
      would wait for the same contact as before, or still for none. */
  lemma SetKeepsWaitingIff(s: Sessions, v: Session, calls: StoreCalls)
    requires WaitingExact(s)
    ensures WaitingExact(AfterSetSession(s, v, calls)) <==>
              !Stores(s, v, calls) || WouldWaitFor(s.store.rows, v) == WaitsFor(s.store.rows, v.id)
  {
    var s' := AfterSetSession(s, v, calls);
    SetEffect(s, v, calls);
    assert forall c :: Waiting(s', c) == Waiting(s, c);
    assert forall id :: id != v.id ==> WaitsFor(s'.store.rows, id) == WaitsFor(s.store.rows, id);
    var was, now := WaitsFor(s.store.rows, v.id), WaitsFor(s'.store.rows, v.id);
    assert Stores(s, v, calls) ==> now == WouldWaitFor(s.store.rows, v);
    if now != was {
      var c := if now.Some? then now.value else was.value;
      assert v.id in Waiting(s', c) <==> v.id in Waiting(s, c);
    }
  }

  /** Redis holds only sessions that have a row, under the row's contact. */
  ghost predicate Owned(s: Sessions) {
    forall k :: k in s.store.redis && k.scope == "" ==>
                  k.id in s.store.rows && s.store.redis[k].contactId == s.store.rows[k.id].contactId
  }

  lemma FoundIsOwned(s: Sessions, id: Id, calls: UpdateCalls)
    requires Owned(s)
    ensures var s1 := AfterLookup(s, id, calls);
            Owned(s1) && s1.store.rows == s.store.rows && s1.waiting == s.waiting && s1.contacts == s.contacts
    ensures var found := LookupSession(s, id, calls);
            found.Some? && found.value.Some? ==>
              id in s.store.rows && found.value.value.contactId == s.store.rows[id].contactId
  {
  }

  /** Up to its index write, a status update that succeeds is a `set` after a lookup, and changes one
      row. */
  lemma UpdateStores(s: Sessions, id: Id, status: string, extra: Extra, calls: UpdateCalls)
    returns (looked: Sessions, v: Session)
    requires Owned(s) && UpdateWorks(s, id, status, extra, calls)
    ensures id in s.store.rows
    ensures Owned(looked) && looked.store.rows == s.store.rows && looked.waiting == s.waiting && looked.contacts == s.contacts
    ensures FreshBut(s, id) ==> FreshBut(looked, id)
    ensures SetWorks(looked, v, calls.store)
    ensures AfterUpdateStatus(s, id, status, extra, calls) ==
              AfterIndex(AfterSetSession(looked, v, calls.store), id, s.store.rows[id].contactId, status, calls.index)
    ensures v == Updated(LookupSession(s, id, calls).value.value, id, status, extra)
    ensures v.contactId == Edited(extra.contactId, s.store.rows[id].contactId)
  {
    FoundIsOwned(s, id, calls);
    LookupKeepsFresh(s, id, calls);
    looked := AfterLookup(s, id, calls);
    v := Updated(LookupSession(s, id, calls).value.value, id, status, extra);
  }

  lemma LookupKeepsFresh(s: Sessions, id: Id, calls: UpdateCalls)
    ensures FreshBut(s, id) ==> FreshBut(AfterLookup(s, id, calls), id)
  {
  }

  lemma IndexWriteOnly(s: Sessions, id: Id, c: Option<ContactId>, status: string, works: bool)
    ensures var s' := AfterIndex(s, id, c, status, works); s'.store == s.store && s'.contacts == s.contacts
  {
  }

  /** The row that a status update leaves. */
  lemma UpdateRow(s: Sessions, id: Id, status: string, extra: Extra, calls: UpdateCalls)
    returns (stored: Sessions, v: Session)
    requires Owned(s) && UpdateWorks(s, id, status, extra, calls)
    ensures id in s.store.rows
    ensures stored.waiting == s.waiting && stored.store.rows == s.store.rows[id := Merged(s.store.rows, v)]
    ensures AfterUpdateStatus(s, id, status, extra, calls) ==
              AfterIndex(stored, id, s.store.rows[id].contactId, status, calls.index)
    ensures AfterUpdateStatus(s, id, status, extra, calls).store.rows == stored.store.rows
    ensures v == Updated(LookupSession(s, id, calls).value.value, id, status, extra)
    ensures v.contactId == Edited(extra.contactId, s.store.rows[id].contactId)
  {
    var looked;
    looked, v := UpdateStores(s, id, status, extra, calls);
    stored := AfterSetSession(looked, v, calls.store);
    RowStored(looked, v, calls.store);
    IndexWriteOnly(stored, id, s.store.rows[id].contactId, status, calls.index);
  }

  /** A status update that succeeds keeps the index exact exactly if the merged session would wait as
      the named status says, for the contact the session had. Whether Redis and Postgres agree on
      anything but the contact does not matter. */
  lemma UpdateKeepsWaitingIff(s: Sessions, id: Id, status: string, extra: Extra, calls: UpdateCalls)
    requires Owned(s) && ContactsExist(s) && WaitingExact(s)
    requires UpdateWorks(s, id, status, extra, calls)
    ensures id in s.store.rows
    ensures WaitingExact(AfterUpdateStatus(s, id, status, extra, calls)) <==>
              WouldWaitFor(s.store.rows, Updated(LookupSession(s, id, calls).value.value, id, status, extra)) ==
                if !calls.index then WaitsFor(s.store.rows, id)
                else if IsWaiting(status) then s.store.rows[id].contactId else None
  {
    var stored, v := UpdateRow(s, id, status, extra, calls);
    IndexedWithRow(s, stored, id, v, status, calls.index);
  }

  lemma IndexedWithRow(s: Sessions, stored: Sessions, id: Id, v: Session, status: string, works: bool)
    requires WaitingExact(s) && id in s.store.rows && s.store.rows[id].contactId.Some? && v.id == id
    requires stored.waiting == s.waiting && stored.store.rows == s.store.rows[id := Merged(s.store.rows, v)]
    ensures WaitingExact(AfterIndex(stored, id, s.store.rows[id].contactId, status, works)) <==>
              WouldWaitFor(s.store.rows, v) ==
                if !works then WaitsFor(s.store.rows, id)
                else if IsWaiting(status) then s.store.rows[id].contactId else None
  {
    IndexedOnce(s, stored, id, s.store.rows[id].contactId.value, status, works);
  }

  /** One index write for `id`, which so far could only be listed under `c0`. */
  lemma IndexedOnce(s: Sessions, s2: Sessions, id: Id, c0: ContactId, status: string, works: bool)
    requires WaitingExact(s) && (WaitsFor(s.store.rows, id).Some? ==> WaitsFor(s.store.rows, id) == Some(c0))
    requires forall c :: Waiting(s2, c) == Waiting(s, c)
    requires forall x :: x != id ==> WaitsFor(s2.store.rows, x) == WaitsFor(s.store.rows, x)
    ensures var s' := AfterIndex(s2, id, Some(c0), status, works);
            WaitingExact(s') <==>
              WaitsFor(s2.store.rows, id) ==
                if !works then WaitsFor(s.store.rows, id) else if IsWaiting(status) then Some(c0) else None
  {
    var s' := AfterIndex(s2, id, Some(c0), status, works);
    var expected := if !works then WaitsFor(s.store.rows, id) else if IsWaiting(status) then Some(c0) else None;
    forall c ensures id in Waiting(s', c) <==> expected == Some(c) {
      assert id in Waiting(s, c) <==> WaitsFor(s.store.rows, id) == Some(c);
    }
    forall c, x | x != id ensures x in Waiting(s', c) <==> WaitsFor(s2.store.rows, x) == Some(c) {
      assert x in Waiting(s, c) <==> WaitsFor(s.store.rows, x) == Some(c);
    }
    var actual := WaitsFor(s2.store.rows, id);
    if actual != expected {
      var c := if actual.Some? then actual.value else expected.value;
      assert id in Waiting(s', c) <==> expected == Some(c);
    }
  }

  /** The row ends up as the update's status argument says: additional data may repeat the status, in
      other words even, and may move a session to another contact only when it does not wait. */
  predicate EndsAsNamed(row: Session, status: string, extra: Extra) {
    && (extra.status.Some? ==> IsWaiting(extra.status.value) == IsWaiting(status))
    && extra.contactId != Unset
    && (IsWaiting(status) && extra.contactId.To? ==> Some(extra.contactId.value) == row.contactId)
  }

  /** The index write that follows a row which ends as named. Since the index was exact, the rows may
      have changed for this session only. */
  lemma IndexAfterStore(before: Sessions, rows: map<Id, Session>, stored: Sessions, id: Id, status: string, extra: Extra, v: Session)
    requires WaitingExact(before) && stored.waiting == before.waiting && id in before.store.rows && id in rows
    requires before.store.rows[id].contactId == rows[id].contactId && rows[id].contactId.Some?
    requires forall x :: x != id ==> WaitsFor(rows, x) == WaitsFor(before.store.rows, x)
    requires stored.store.rows == rows[id := Merged(rows, v)] && v.id == id && EndsAsNamed(rows[id], status, extra)
    requires v.contactId == Edited(extra.contactId, rows[id].contactId)
    requires v.status == if extra.status.Some? then extra.status.value else status
    ensures WaitingExact(AfterIndex(stored, id, rows[id].contactId, status, true))
  {
    forall x | x != id ensures WaitsFor(stored.store.rows, x) == WaitsFor(before.store.rows, x) {
      assert WaitsFor(stored.store.rows, x) == WaitsFor(rows, x);
    }
    IndexedOnce(before, stored, id, rows[id].contactId.value, status, true);
  }

  lemma UpdateKeepsIndex(s: Sessions, before: Sessions, id: Id, status: string, extra: Extra, calls: UpdateCalls)
    requires Owned(s) && ContactsExist(s) && UpdateWorks(s, id, status, extra, calls) && calls.index
    requires id in s.store.rows && EndsAsNamed(s.store.rows[id], status, extra)
    requires WaitingExact(before) && before.waiting == s.waiting && id in before.store.rows
    requires before.store.rows[id].contactId == s.store.rows[id].contactId
    requires forall x :: x != id ==> WaitsFor(s.store.rows, x) == WaitsFor(before.store.rows, x)
    ensures WaitingExact(AfterUpdateStatus(s, id, status, extra, calls))
  {
    var stored, v := UpdateRow(s, id, status, extra, calls);
    IndexAfterStore(before, s.store.rows, stored, id, status, extra, v);
  }

  /** The part of the store that the waiting index rests on. */
  ghost predicate IndexInv(s: Sessions) {
    Owned(s) && Keyed(CFG, s.store.rows) && ContactsExist(s) && WaitingExact(s)
  }

  lemma UpdateKeepsOwned(s: Sessions, id: Id, status: string, extra: Extra, calls: UpdateCalls)
    requires Owned(s) && Keyed(CFG, s.store.rows) && UpdateWorks(s, id, status, extra, calls)
    requires calls.store.put.redisWrite && extra.contactId != Unset && ContactsExist(s)
    ensures var s' := AfterUpdateStatus(s, id, status, extra, calls);
            Owned(s') && Keyed(CFG, s'.store.rows)
  {
    var looked, v := UpdateStores(s, id, status, extra, calls);
    SetKeepsOwned(looked, v, calls.store);
    IndexWriteOnly(AfterSetSession(looked, v, calls.store), id, s.store.rows[id].contactId, status, calls.index);
  }

  lemma SetKeepsOwned(s: Sessions, v: Session, calls: StoreCalls)
    requires Owned(s) && Keyed(CFG, s.store.rows)
    requires SetWorks(s, v, calls) && calls.put.redisWrite && v.contactId.Some?
    ensures var s' := AfterSetSession(s, v, calls); Owned(s') && Keyed(CFG, s'.store.rows)
  {
    SetEffect(s, v, calls);
    RowStored(s, v, calls);
  }

  // ---------------------------------------------------------------- runs that keep the index

  /** The writes of an update that finds its session arrive, and it ends as named. */
  ghost predicate UpdateIsSteady(s: Sessions, id: Id, status: string, extra: Extra, calls: UpdateCalls) {
    var found := LookupSession(s, id, calls);
    found.Some? && found.value.Some? && id in s.store.rows ==>
      && UpdateWorks(s, id, status, extra, calls) && calls.index && calls.store.put.redisWrite
      && EndsAsNamed(s.store.rows[id], status, extra)
  }

  /** The writes of a wait arrive; once the row is written the lookup must answer as well. */
  ghost predicate WaitIsSteady(s: Sessions, id: Id, status: string, fields: map<string, Option<string>>, calls: WaitCalls) {
    id in s.store.rows && calls.table != Failed ==>
      var s1 := RowWritten(s, id, status, fields);
      && calls.table == Ok && UpdateWorks(s1, id, status, Naming(status, fields), calls.update)
      && calls.update.index && calls.update.store.put.redisWrite
  }

  /** Requests whose writes arrive. Plain sets leave waiting to the updates. Nothing is asked of the
      optional fields: they may be set and cleared. */
  ghost predicate IndexSteady(s: Sessions, r: Request) {
    match r
    case Set(v, calls) =>
      && SetWorks(s, v, calls) && calls.put.redisWrite && v.contactId.Some?
      && WouldWaitFor(s.store.rows, v) == WaitsFor(s.store.rows, v.id)
    case UpdateStatus(id, status, extra, calls) => UpdateIsSteady(s, id, status, extra, calls)
    case RegisterWait(id, node, waitingFor, calls) => WaitIsSteady(s, id, "waiting", Registering(node, waitingFor), calls)
    case CompleteWait(id, result, calls) => WaitIsSteady(s, id, CompletedStatus(result), Completing(result), calls)
    case _ => true
  }

  lemma UpdateKeepsIndexInv(s: Sessions, id: Id, status: string, extra: Extra, calls: UpdateCalls)
    requires IndexInv(s) && UpdateIsSteady(s, id, status, extra, calls)
    ensures IndexInv(AfterUpdateStatus(s, id, status, extra, calls))
  {
    FoundIsOwned(s, id, calls);
    var found := LookupSession(s, id, calls);
    if found.Some? && found.value.Some? {
      UpdateKeepsOwned(s, id, status, extra, calls);
      UpdateKeepsContacts(s, id, status, extra, calls);
      UpdateKeepsIndex(s, s, id, status, extra, calls);
    }
  }

  lemma RowWrittenKeeps(s: Sessions, id: Id, status: string, fields: map<string, Option<string>>)
    requires Owned(s) && Keyed(CFG, s.store.rows) && ContactsExist(s)
    ensures var s1 := RowWritten(s, id, status, fields);
            && Owned(s1) && Keyed(CFG, s1.store.rows) && ContactsExist(s1) && s1.waiting == s.waiting
            && (id in s.store.rows ==> s1.store.rows[id].contactId == s.store.rows[id].contactId)
            && forall x :: x != id ==> WaitsFor(s1.store.rows, x) == WaitsFor(s.store.rows, x)
  {
  }

  /** A wait for a session that has a row, once the row is written. */
  lemma UpdateAfterWriteKeeps(s: Sessions, s1: Sessions, id: Id, status: string, extra: Extra, calls: UpdateCalls)
    requires IndexInv(s) && id in s.store.rows && Owned(s1) && Keyed(CFG, s1.store.rows) && ContactsExist(s1)
    requires s1.waiting == s.waiting && id in s1.store.rows && s1.store.rows[id].contactId == s.store.rows[id].contactId
    requires forall x :: x != id ==> WaitsFor(s1.store.rows, x) == WaitsFor(s.store.rows, x)
    requires UpdateWorks(s1, id, status, extra, calls) && calls.index && calls.store.put.redisWrite
    requires EndsAsNamed(s1.store.rows[id], status, extra)
    ensures IndexInv(AfterUpdateStatus(s1, id, status, extra, calls))
  {
    UpdateKeepsOwned(s1, id, status, extra, calls);
    UpdateKeepsContacts(s1, id, status, extra, calls);
    UpdateKeepsIndex(s1, s, id, status, extra, calls);
  }

  lemma WaitKeepsIndexInv(s: Sessions, id: Id, status: string, fields: map<string, Option<string>>, calls: WaitCalls)
    requires IndexInv(s) && WaitIsSteady(s, id, status, fields, calls)
    ensures IndexInv(AfterWait(s, id, status, fields, calls))
  {
    if calls.table != Failed {
      var s1 := RowWritten(s, id, status, fields);
      RowWrittenKeeps(s, id, status, fields);
      if id in s.store.rows {
        UpdateAfterWriteKeeps(s, s1, id, status, Naming(status, fields), calls.update);
      } else {
        UpdateKeepsIndexInv(s, id, status, Naming(status, fields), calls.update);
      }
    }
  }

  lemma StepKeepsIndexInv(s: Sessions, r: Request)
    requires IndexInv(s) && IndexSteady(s, r)
    ensures IndexInv(After(s, r))
  {
    match r
    case Set(v, calls) =>
      SetKeepsOwned(s, v, calls);
      SetKeepsContacts(s, v, calls);
      RowStored(s, v, calls);
      SetKeepsWaitingIff(s, v, calls);
    case UpdateStatus(id, status, extra, calls) => UpdateKeepsIndexInv(s, id, status, extra, calls);
    case RegisterWait(id, node, waitingFor, calls) =>
      WaitKeepsIndexInv(s, id, "waiting", Registering(node, waitingFor), calls);
    case CompleteWait(id, result, calls) =>
      WaitKeepsIndexInv(s, id, CompletedStatus(result), Completing(result), calls);
    case Lookup(id, calls) => FoundIsOwned(s, id, calls);
    case ValuesExpire(keys) =>
  }

  ghost predicate IndexSteadyRun(s: Sessions, rs: seq<Request>)
    decreases |rs|
  {
    rs == [] || (IndexSteady(s, rs[0]) && IndexSteadyRun(After(s, rs[0]), rs[1..]))
  }

  /** Over every such run the index lists for each contact exactly the sessions that wait for it, even
      where Redis and Postgres have come to disagree. */
  lemma {:induction false} WaitingIndexStaysExact(s: Sessions, rs: seq<Request>)
    requires IndexInv(s) && IndexSteadyRun(s, rs)
    ensures IndexInv(Serve(s, rs))
    decreases |rs|
  {
    if rs != [] {
      StepKeepsIndexInv(s, rs[0]);
      WaitingIndexStaysExact(After(s, rs[0]), rs[1..]);
    }
  }

  // ---------------------------------------------------------------- runs that keep the agreement

  /** Postgres fills in the counters, the variables and the logs of every row. */
  ghost predicate RowsFilled(rows: map<Id, Session>) {
    forall id :: id in rows ==>
                   && rows[id].retryCount.Some? && rows[id].maxRetries.Some?
                   && rows[id].variables.Some? && rows[id].executionLogs.Some?
  }

  ghost predicate Inv(s: Sessions) {
    IndexInv(s) && Coherent(CFG, s.store, "") && RowsFilled(s.store.rows)
  }

  /** The additional data clears nothing that the row holds. */
  predicate ClearsNothing(row: Session, extra: Extra) {
    && extra.contactId != Unset && extra.retryCount != Unset && extra.maxRetries != Unset
    && Cleared(extra.fields) !! row.optional.Keys
  }

  /** An update of a session whose copy in Redis may be behind its row. */
  lemma UpdateAgrees(s: Sessions, id: Id, status: string, extra: Extra, calls: UpdateCalls)
    requires Owned(s) && FreshBut(s, id) && ContactsExist(s)
    requires UpdateWorks(s, id, status, extra, calls) && calls.store.put.redisWrite
    ensures Coherent(CFG, AfterUpdateStatus(s, id, status, extra, calls).store, "") <==>
              Complete(s.store.rows, Updated(LookupSession(s, id, calls).value.value, id, status, extra))
  {
    var looked, v := UpdateStores(s, id, status, extra, calls);
    SetAgreesIff(looked, v, calls.store);
    IndexWriteOnly(AfterSetSession(looked, v, calls.store), id, s.store.rows[id].contactId, status, calls.index);
  }

  lemma CompleteIff(rows: map<Id, Session>, id: Id, v: Session, status: string, extra: Extra)
    requires id in rows && v.contactId.Some? && v.retryCount.Some? && v.maxRetries.Some?
    requires Given(extra.fields).Keys + v.optional.Keys == Given(extra.fields).Keys + rows[id].optional.Keys
    ensures Complete(rows, Updated(v, id, status, extra)) <==>
              && extra.contactId != Unset && extra.retryCount != Unset && extra.maxRetries != Unset
              && Cleared(extra.fields) !! rows[id].optional.Keys
  {
    var w := Updated(v, id, status, extra);
    assert w.optional.Keys == v.optional.Keys - Cleared(extra.fields) + Given(extra.fields).Keys;
    assert Cleared(extra.fields) !! Given(extra.fields).Keys;
    if f :| f in Cleared(extra.fields) && f in rows[id].optional { assert f !in w.optional; }
  }

  /** After an update that succeeds, Redis and Postgres agree exactly if it cleared nothing that the row
      holds: Redis drops a cleared field and Postgres keeps it. */
  lemma UpdateAgreesIff(s: Sessions, id: Id, status: string, extra: Extra, calls: UpdateCalls)
    requires Inv(s) && UpdateWorks(s, id, status, extra, calls) && calls.store.put.redisWrite
    ensures id in s.store.rows
    ensures Coherent(CFG, AfterUpdateStatus(s, id, status, extra, calls).store, "") <==>
              ClearsNothing(s.store.rows[id], extra)
  {
    GetIsTransparent(CFG, s.store, "", id, calls.get);
    FoundIsOwned(s, id, calls);
    UpdateAgrees(s, id, status, extra, calls);
    CompleteIff(s.store.rows, id, LookupSession(s, id, calls).value.value, status, extra);
  }

  /** A wait that is registered or completed with all its writes leaves them agreeing exactly if it
      clears no field that the row held. */
  lemma WaitAgreesIff(s: Sessions, id: Id, status: string, fields: map<string, Option<string>>, calls: WaitCalls)
    requires Inv(s) && id in s.store.rows && calls.table == Ok && WaitIsSteady(s, id, status, fields, calls)
    ensures Coherent(CFG, AfterWait(s, id, status, fields, calls).store, "") <==>
              Cleared(fields) !! s.store.rows[id].optional.Keys
  {
    var s1, extra := RowWritten(s, id, status, fields), Naming(status, fields);
    RowWrittenKeeps(s, id, status, fields);
    assert FreshBut(s1, id);
    UpdateAgrees(s1, id, status, extra, calls.update);
    var v := LookupSession(s1, id, calls.update).value.value;
    WaitFinds(s, id, status, fields, calls.update);
    CompleteIff(s1.store.rows, id, v, status, extra);
    assert Cleared(fields) !! Given(fields).Keys;
    assert s1.store.rows[id].optional.Keys == s.store.rows[id].optional.Keys + Given(fields).Keys;
  }

  /** Past the cache the row has changed; the copy that is found may be from before. */
  lemma WaitFinds(s: Sessions, id: Id, status: string, fields: map<string, Option<string>>, calls: UpdateCalls)
    requires Inv(s) && id in s.store.rows
    requires var found := LookupSession(RowWritten(s, id, status, fields), id, calls); found.Some? && found.value.Some?
    ensures var s1 := RowWritten(s, id, status, fields);
            var v := LookupSession(s1, id, calls).value.value;
            && v.contactId.Some? && v.retryCount.Some? && v.maxRetries.Some?
            && Given(fields).Keys + v.optional.Keys == Given(fields).Keys + s1.store.rows[id].optional.Keys
  {
    var k := Key("", id);
    assert k in s.store.redis ==> View(CFG, s.store.rows, k.id) == Some(s.store.redis[k]);
  }

  /** Steady requests that also store complete sessions and clear nothing that the row holds. */
  ghost predicate Steady(s: Sessions, r: Request) {
    IndexSteady(s, r) &&
    match r
    case Set(v, calls) => Complete(s.store.rows, v)
    case UpdateStatus(id, status, extra, calls) => id in s.store.rows ==> ClearsNothing(s.store.rows[id], extra)
    case CompleteWait(id, result, calls) =>
      id in s.store.rows && !result.Cancelled? ==> "waitingFor" !in s.store.rows[id].optional
    case _ => true
  }

  lemma SetKeeps(s: Sessions, v: Session, calls: StoreCalls)
    requires Inv(s) && IndexSteady(s, Set(v, calls)) && Complete(s.store.rows, v)
    ensures Inv(AfterSetSession(s, v, calls))
  {
    StepKeepsIndexInv(s, Set(v, calls));
    SetAgreesIff(s, v, calls);
    RowStored(s, v, calls);
    RowFits(s.store.rows, v);
  }

  lemma RowFits(rows: map<Id, Session>, v: Session)
    requires RowsFilled(rows)
    ensures RowsFilled(rows[v.id := Merged(rows, v)])
  {
  }

  lemma LookupKeeps(s: Sessions, id: Id, calls: UpdateCalls)
    requires Inv(s)
    ensures Inv(AfterLookup(s, id, calls))
  {
    StepKeepsIndexInv(s, Lookup(id, calls));
    FoundIsOwned(s, id, calls);
    StepKeepsCoherence(CFG, s.store, Call("", Get(id, calls.get)), "");
  }

  /** Postgres fills the row in whatever is stored. */
  lemma UpdateFills(s: Sessions, id: Id, status: string, extra: Extra, calls: UpdateCalls)
    requires Owned(s) && RowsFilled(s.store.rows) && UpdateWorks(s, id, status, extra, calls)
    ensures RowsFilled(AfterUpdateStatus(s, id, status, extra, calls).store.rows)
  {
    var stored, v := UpdateRow(s, id, status, extra, calls);
    RowFits(s.store.rows, v);
  }

  lemma UpdateKeeps(s: Sessions, id: Id, status: string, extra: Extra, calls: UpdateCalls)
    requires Inv(s) && Steady(s, UpdateStatus(id, status, extra, calls))
    ensures Inv(AfterUpdateStatus(s, id, status, extra, calls))
  {
    LookupKeeps(s, id, calls);
    FoundIsOwned(s, id, calls);
    UpdateKeepsIndexInv(s, id, status, extra, calls);
    var found := LookupSession(s, id, calls);
    if found.Some? && found.value.Some? {
      UpdateAgreesIff(s, id, status, extra, calls);
      UpdateFills(s, id, status, extra, calls);
    }
  }

  lemma WaitKeeps(s: Sessions, id: Id, status: string, fields: map<string, Option<string>>, calls: WaitCalls)
    requires Inv(s) && WaitIsSteady(s, id, status, fields, calls) && id in s.store.rows
    requires Cleared(fields) !! s.store.rows[id].optional.Keys
    ensures Inv(AfterWait(s, id, status, fields, calls))
  {
    if calls.table != Failed {
      WaitKeepsIndexInv(s, id, status, fields, calls);
      WaitAgreesIff(s, id, status, fields, calls);
      RowWrittenKeeps(s, id, status, fields);
      UpdateFills(RowWritten(s, id, status, fields), id, status, Naming(status, fields), calls.update);
    }
  }

  /** A wait for a session without a row changes nothing but what the lookup caches. */
  lemma WaitForNobody(s: Sessions, id: Id, status: string, fields: map<string, Option<string>>, calls: WaitCalls)
    requires Inv(s) && id !in s.store.rows
    ensures Inv(AfterWait(s, id, status, fields, calls))
  {
    FoundIsOwned(s, id, calls.update);
    LookupKeeps(s, id, calls.update);
  }

  lemma StepKeeps(s: Sessions, r: Request)
    requires Inv(s) && Steady(s, r)
    ensures Inv(After(s, r))
  {
    match r
    case Set(v, calls) => SetKeeps(s, v, calls);
    case UpdateStatus(id, status, extra, calls) => UpdateKeeps(s, id, status, extra, calls);
    case RegisterWait(id, node, waitingFor, calls) =>
      assert Cleared(Registering(node, waitingFor)) == {};
      if id in s.store.rows { WaitKeeps(s, id, "waiting", Registering(node, waitingFor), calls); }
      else { WaitForNobody(s, id, "waiting", Registering(node, waitingFor), calls); }
    case CompleteWait(id, result, calls) =>
      assert Cleared(Completing(result)) == if result.Cancelled? then {} else {"waitingFor"};
      if id in s.store.rows { WaitKeeps(s, id, CompletedStatus(result), Completing(result), calls); }
    case Lookup(id, calls) => LookupKeeps(s, id, calls);
    case ValuesExpire(keys) =>
      StepKeepsIndexInv(s, r);
      StepKeepsCoherence(CFG, s.store, Call("", Expire(keys, {})), "");
  }

  ghost predicate SteadyRun(s: Sessions, rs: seq<Request>)
    decreases |rs|
  {
    rs == [] || (Steady(s, rs[0]) && SteadyRun(After(s, rs[0]), rs[1..]))
  }

  /** Over every such run Redis and Postgres agree on every session, and the index lists for each
      contact exactly the sessions that wait for it. */
  lemma {:induction false} StoreStaysExact(s: Sessions, rs: seq<Request>)
    requires Inv(s) && SteadyRun(s, rs)
    ensures Inv(Serve(s, rs))
    decreases |rs|
  {
    if rs != [] {
      StepKeeps(s, rs[0]);
      StoreStaysExact(After(s, rs[0]), rs[1..]);
    }
  }

  /** A failed dispatch under a fresh id is such a request as soon as its writes arrive. */
  lemma FailedDispatchIsSteady(s: Sessions, id: Id, journey: string, contact: ContactId, optional: map<string, string>, calls: StoreCalls)
    requires id !in s.store.rows && contact != ""
    requires calls == StoreCalls(SetCalls(true, true), Ok, Ok)
    ensures Steady(s, Set(FailedDispatch(id, journey, contact, optional), calls))
  {
  }

  // ---------------------------------------------------------------- what completing a wait leaves

  /** Completing a wait, with every write arriving, leaves Redis and Postgres agreeing exactly if it was
      cancelled or the row held no wait. */
  lemma CompletedWaitAgreesIff(s: Sessions, id: Id, result: WaitResult, calls: WaitCalls)
    requires Inv(s) && id in s.store.rows && calls.table == Ok
    requires IndexSteady(s, CompleteWait(id, result, calls))
    ensures Coherent(CFG, After(s, CompleteWait(id, result, calls)).store, "") <==>
              result.Cancelled? || "waitingFor" !in s.store.rows[id].optional
  {
    assert Cleared(Completing(result)) == if result.Cancelled? then {} else {"waitingFor"};
    WaitAgreesIff(s, id, CompletedStatus(result), Completing(result), calls);
  }

  /** The row a completed wait leaves: active, and with the wait that it had. */
  lemma CompletedWaitStaysInTheRow(s: Sessions, id: Id, calls: WaitCalls)
    requires Inv(s) && id in s.store.rows && "waitingFor" in s.store.rows[id].optional && calls.table == Ok
    requires IndexSteady(s, CompleteWait(id, Success, calls))
    ensures var rows := After(s, CompleteWait(id, Success, calls)).store.rows;
            && id in rows && rows[id].status == "active" && "waitingFor" in rows[id].optional
            && rows[id].optional["waitingFor"] == s.store.rows[id].optional["waitingFor"]
  {
    var fields, extra := Completing(Success), Naming("active", Completing(Success));
    var written := RowWritten(s, id, "active", fields);
    RowWrittenKeeps(s, id, "active", fields);
    var stored, v := UpdateRow(written, id, "active", extra, calls.update);
    ClearedFieldStays(s, id, LookupSession(written, id, calls.update).value.value, "active", "waitingFor");
    assert After(s, CompleteWait(id, Success, calls)) == AfterUpdateStatus(written, id, "active", extra, calls.update);
  }

  /** Clearing one field, past the cache and then through it, leaves it in the row. */
  lemma ClearedFieldStays(s: Sessions, id: Id, found: Session, status: string, field: string)
    requires id in s.store.rows && field in s.store.rows[id].optional
    ensures var fields: map<string, Option<string>> := map[field := None];
            var rows := RowWritten(s, id, status, fields).store.rows;
            var row := Merged(rows, Updated(found, id, status, Naming(status, fields)));
            && row.status == status && field in row.optional
            && row.optional[field] == s.store.rows[id].optional[field]
  {
    var fields: map<string, Option<string>> := map[field := None];
    assert Given(fields) == map[] && Cleared(fields) == {field};
  }

  lemma ExpiredShowsTheRow(s: Sessions, id: Id, later: UpdateCalls)
    requires id in s.store.rows && later.get.rowRead
    ensures LookupSession(After(s, ValuesExpire({Key("", id)})), id, later) == Some(Some(ToCached(s.store.rows[id])))
  {
  }

  /** So once the copy in Redis expires, a lookup shows the session active and waiting for what it had
      been waiting for. */
  lemma TheOldWaitComesBack(s: Sessions, id: Id, calls: WaitCalls, later: UpdateCalls)
    requires Inv(s) && id in s.store.rows && "waitingFor" in s.store.rows[id].optional && calls.table == Ok
    requires IndexSteady(s, CompleteWait(id, Success, calls)) && later.get.rowRead
    ensures var s1 := After(After(s, CompleteWait(id, Success, calls)), ValuesExpire({Key("", id)}));
            var found := LookupSession(s1, id, later);
            && found.Some? && found.value.Some? && found.value.value.status == "active"
            && "waitingFor" in found.value.value.optional
            && found.value.value.optional["waitingFor"] == s.store.rows[id].optional["waitingFor"]
  {
    CompletedWaitStaysInTheRow(s, id, calls);
    ExpiredShowsTheRow(After(s, CompleteWait(id, Success, calls)), id, later);
  }
}
