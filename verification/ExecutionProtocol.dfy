/** The campaign execution endpoints as an interleaved protocol.

    Each HTTP handler is a small program whose awaited calls are atomic steps; any number of
    handlers for any campaigns run at once, every call may fail or succeed without the caller
    learning it, and Temporal may end a workflow at any moment. The only atomic guard is the
    partial unique index on active execution rows. */
module ExecutionProtocol {
  import opened Prelude
  import C = CampaignStatus

  type HandlerId = nat
  type RowId = nat

  /** `campaign-<campaignId>-<Date.now()>`: two starts in one millisecond share an id. */
  datatype WorkflowId = WorkflowId(campaign: CampaignId, stamp: nat)

  datatype ExecutionStatus = Running | Paused | Completed | Failed | Cancelled

  /** The statuses the partial unique index and `getActiveExecution` look at. */
  predicate IsActive(s: ExecutionStatus) { s == Running || s == Paused }

  datatype Execution = Execution(campaign: CampaignId, workflow: WorkflowId, status: ExecutionStatus)

  /** The endpoints that act on an existing execution. `Cancel` may carry a workflow id. */
  datatype Action = Pause | Resume | Stop | Cancel(body: Option<WorkflowId>)

  predicate Kills(a: Action) { a.Stop? || a.Cancel? }

  function CampaignVerb(a: Action): C.Verb {
    match a
    case Pause => C.Pause
    case Resume => C.Resume
    case Stop => C.Stop
    case Cancel(_) => C.Stop
  }

  function RowTarget(a: Action): ExecutionStatus {
    match a
    case Pause => Paused
    case Resume => Running
    case Stop => Cancelled
    case Cancel(_) => Cancelled
  }

  /** The calls that load a campaign and save it later without touching its executions: an update, with
      or without a status, a schedule, and a bulk call's turn on one of the campaigns it loaded. */
  datatype Edit = Change(to: Option<C.Status>) | Schedule | BulkTurn(pause: bool)

  /** The status that the call will save, given the one it loaded; none if it refuses. An update that
      names no status saves the loaded one back. */
  function Chosen(edit: Edit, loaded: C.Status): Option<C.Status> {
    match edit
    case Change(to) =>
      if to.None? then Some(loaded) else if to.value in C.ValidTargets(loaded) then to else None
    case Schedule => if C.Allowed(C.Schedule, loaded) then Some(C.Target(C.Schedule)) else None
    case BulkTurn(pause) =>
      var v := if pause then C.Pause else C.Resume;
      if C.Allowed(v, loaded) then Some(C.Target(v)) else None
  }

  /** What a handler awaits next. `target` is the execution row read at the start, if any;
      `w` is the workflow the handler signals. */
  datatype Pc =
    | Checking(c: CampaignId)
    | Starting(c: CampaignId)
    | Inserting(c: CampaignId, w: WorkflowId)
    | Reverting(w: WorkflowId)
    | Reading(c: CampaignId, a: Action)
    | Signalling(c: CampaignId, a: Action, target: Option<RowId>, w: WorkflowId)
    | Loading(c: CampaignId, a: Action, target: Option<RowId>, sent: Option<WorkflowId>)
    | Saving(c: CampaignId, a: Action, target: Option<RowId>, sent: Option<WorkflowId>)
    | Marking(c: CampaignId, a: Action, r: RowId, w: WorkflowId)
    | Undoing(a: Action, w: WorkflowId)
    | Fetching(c: CampaignId, edit: Edit)
    | Writing(c: CampaignId, st: C.Status)

  /** `held` are the workflows whose latest signal was a pause. `strays` is history: the live workflows
      that some step left behind without a row. */
  datatype World = World(
    rows: map<RowId, Execution>,
    live: set<WorkflowId>,
    held: set<WorkflowId>,
    status: map<CampaignId, C.Status>,
    handlers: map<HandlerId, Pc>,
    strays: set<WorkflowId>)

  datatype Event =
    | Execute(h: HandlerId, c: CampaignId)
    | Request(h: HandlerId, c: CampaignId, a: Action)
    | Submit(h: HandlerId, c: CampaignId, edit: Edit)
    | Move(h: HandlerId, o: Outcome, tick: nat)
    | WorkflowEnds(w: WorkflowId)
    | RowCloses(r: RowId, how: ExecutionStatus)
    | CampaignWritten(c: CampaignId, s: C.Status)

  predicate IsActiveRow(s: World, r: RowId, c: CampaignId) {
    r in s.rows && s.rows[r].campaign == c && IsActive(s.rows[r].status)
  }

  ghost predicate HasActive(s: World, c: CampaignId) {
    exists r :: IsActiveRow(s, r, c)
  }

  /** `getActiveExecution`. */
  ghost function GetActive(s: World, c: CampaignId): (r: Option<RowId>)
    ensures r.Some? <==> HasActive(s, c)
    ensures r.Some? ==> IsActiveRow(s, r.value, c)
  {
    if HasActive(s, c) then var r :| IsActiveRow(s, r, c); Some(r) else None
  }

  function At(s: World, h: HandlerId, pc: Pc): World { s.(handlers := s.handlers[h := pc]) }

  function Done(s: World, h: HandlerId): World { s.(handlers := s.handlers - {h}) }

  function Kill(s: World, w: WorkflowId): World {
    s.(live := s.live - {w}, strays := s.strays - {w})
  }

  /** The signal an action sends, when it arrives. */
  function Signalled(s: World, a: Action, w: WorkflowId): World {
    match a
    case Pause => s.(held := s.held + {w})
    case Resume => s.(held := s.held - {w})
    case Stop => Kill(s, w)
    case Cancel(_) => Kill(s, w)
  }

  /** Where an exception after the signal leads: pause and resume send the opposite signal,
      stop and cancel just rethrow. */
  function Thrown(s: World, h: HandlerId, a: Action, w: Option<WorkflowId>): World {
    if Kills(a) || w.None? then Done(s, h) else At(s, h, Undoing(a, w.value))
  }

  function Inserted(s: World, tick: RowId, c: CampaignId, w: WorkflowId): World {
    s.(rows := s.rows[tick := Execution(c, w, Running)])
  }

  /** True when writing `status` to row `r` would break the partial unique index. */
  ghost predicate Collides(s: World, r: RowId, status: ExecutionStatus) {
    r in s.rows && IsActive(status) && exists q :: q != r && IsActiveRow(s, q, s.rows[r].campaign)
  }

  /** The row update. Marking a row inactive for a foreign workflow id strands its own workflow. */
  function Marked(s: World, a: Action, r: RowId, w: WorkflowId): World {
    if r !in s.rows then s else
    var row := s.rows[r];
    var s' := s.(rows := s.rows[r := row.(status := RowTarget(a))]);
    if Kills(a) && w != row.workflow then s'.(strays := s.strays + ({row.workflow} * s.live)) else s'
  }

  ghost predicate Enabled(s: World, e: Event) {
    match e
    case Execute(h, _) => h !in s.handlers
    case Request(h, _, _) => h !in s.handlers
    case Submit(h, _, _) => h !in s.handlers
    case Move(h, _, tick) =>
      && h in s.handlers
      && (s.handlers[h].Inserting? ==> tick !in s.rows)
    case WorkflowEnds(w) => true
    case RowCloses(r, how) => r in s.rows && s.rows[r].workflow !in s.live && !IsActive(how)
    case CampaignWritten(c, _) => c in s.status
  }

  ghost function Apply(s: World, e: Event): World
    requires Enabled(s, e)
  {
    match e
    case Execute(h, c) => At(s, h, Checking(c))
    case Request(h, c, a) => At(s, h, Reading(c, a))
    case Submit(h, c, edit) => At(s, h, Fetching(c, edit))
    case Move(h, o, tick) => Advance(s, h, s.handlers[h], o, tick)
    case WorkflowEnds(w) => Kill(s, w)
    case RowCloses(r, how) => s.(rows := s.rows[r := s.rows[r].(status := how)])
    case CampaignWritten(c, st) => s.(status := s.status[c := st])
  }

  /** One awaited call of handler `h`, ending with outcome `o`. */
  ghost function Advance(s: World, h: HandlerId, pc: Pc, o: Outcome, tick: nat): World {
    match pc
    case Checking(c) =>
      if o != Ok || c !in s.status || HasActive(s, c) then Done(s, h) else At(s, h, Starting(c))
    case Starting(c) =>
      var w := WorkflowId(c, tick);
      if o.Failed? || w in s.live then Done(s, h)
      else if o.AckLost? then Done(s.(live := s.live + {w}, strays := s.strays + {w}), h)
      else At(s.(live := s.live + {w}), h, Inserting(c, w))
    case Inserting(c, w) =>
      if o.Failed? || HasActive(s, c) then At(s, h, Reverting(w))
      else if o.AckLost? then At(Inserted(s, tick, c, w), h, Reverting(w))
      else Done(Inserted(s, tick, c, w), h)
    case Reverting(w) =>
      if o.Failed? then Done(s.(strays := s.strays + ({w} * s.live)), h) else Done(Kill(s, w), h)
    case Reading(c, a) =>
      if o != Ok then Done(s, h) else AfterRead(s, h, c, a, GetActive(s, c))
    case Signalling(c, a, t, w) =>
      if o.Failed? then Done(s, h)
      else if o.AckLost? then Done(Signalled(s, a, w), h)
      else At(Signalled(s, a, w), h, Loading(c, a, t, Some(w)))
    case Loading(c, a, t, w) =>
      if o != Ok || c !in s.status || !C.Allowed(CampaignVerb(a), s.status[c])
      then Thrown(s, h, a, w) else At(s, h, Saving(c, a, t, w))
    case Saving(c, a, t, w) =>
      var s' := s.(status := s.status[c := C.Target(CampaignVerb(a))]);
      if o.Failed? then Thrown(s, h, a, w)
      else if o.AckLost? then Thrown(s', h, a, w)
      else if t.Some? && w.Some? then At(s', h, Marking(c, a, t.value, w.value))
      else Done(s', h)
    case Marking(c, a, r, w) =>
      if o.Failed? || Collides(s, r, RowTarget(a)) then Thrown(s, h, a, Some(w))
      else if o.AckLost? then Thrown(Marked(s, a, r, w), h, a, Some(w))
      else Done(Marked(s, a, r, w), h)
    case Undoing(a, w) =>
      if o.Failed? then Done(s, h)
      else Done(Signalled(s, if a.Pause? then Resume else Pause, w), h)
    case Fetching(c, edit) =>
      if o != Ok || c !in s.status || Chosen(edit, s.status[c]).None? then Done(s, h)
      else At(s, h, Writing(c, Chosen(edit, s.status[c]).value))
    case Writing(c, st) =>
      if o.Failed? then Done(s, h) else Done(s.(status := s.status[c := st]), h)
  }

  /** The branch each handler takes on the active execution it found. */
  function AfterRead(s: World, h: HandlerId, c: CampaignId, a: Action, found: Option<RowId>): World
    requires found.Some? ==> found.value in s.rows
  {
    var named := if a.Cancel? && a.body.Some? then a.body
                 else if found.Some? then Some(s.rows[found.value].workflow) else None;
    if named.Some? then At(s, h, Signalling(c, a, found, named.value))
    else if a.Stop? then At(s, h, Loading(c, a, None, None))
    else Done(s, h)
  }

  // ---------------------------------------------------------------- runs

  ghost predicate CanRun(s: World, run: seq<Event>)
    decreases |run|
  {
    run == [] || (Enabled(s, run[0]) && CanRun(Apply(s, run[0]), run[1..]))
  }

  ghost function Run(s: World, run: seq<Event>): World
    requires CanRun(s, run)
    decreases |run|
  {
    if run == [] then s else Run(Apply(s, run[0]), run[1..])
  }

  ghost predicate Init(s: World) {
    s.rows == map[] && s.live == {} && s.handlers == map[] && s.strays == {}
  }

  // ---------------------------------------------------------------- the invariant

  /** The partial unique index. */
  ghost predicate OneActiveRow(s: World) {
    forall r, q, c :: IsActiveRow(s, r, c) && IsActiveRow(s, q, c) ==> r == q
  }

  ghost predicate RowsNameTheirCampaign(s: World) {
    forall r :: r in s.rows ==> s.rows[r].workflow.campaign == s.rows[r].campaign
  }

  /** An execute handler between starting `w` and settling it. */
  ghost predicate Pending(s: World, w: WorkflowId) {
    exists h :: h in s.handlers && Settles(s.handlers[h], w)
  }

  predicate Settles(pc: Pc, w: WorkflowId) {
    pc == Inserting(w.campaign, w) || pc == Reverting(w)
  }

  ghost predicate HasRow(s: World, w: WorkflowId) {
    exists r :: IsActiveRow(s, r, w.campaign) && s.rows[r].workflow == w
  }

  ghost predicate HasOtherRow(s: World, w: WorkflowId, not: RowId) {
    exists r :: r != not && IsActiveRow(s, r, w.campaign) && s.rows[r].workflow == w
  }

  /** A workflow that somebody can still find and stop. */
  ghost predicate Accounted(s: World, w: WorkflowId) { Pending(s, w) || HasRow(s, w) }

  ghost predicate Covered(s: World, w: WorkflowId) { Accounted(s, w) || w in s.strays }

  /** The row and workflow a handler carries belong together. */
  ghost predicate Carries(s: World, c: CampaignId, a: Action, r: RowId, w: WorkflowId) {
    && r in s.rows && s.rows[r].campaign == c
    && (if a.Cancel? && a.body.Some? then w == a.body.value else w == s.rows[r].workflow)
  }

  /** After its cancel signal arrived, a handler may mark its row: the workflow is dead, or a start
      in the same millisecond revived the id and that start is accounted for elsewhere. */
  ghost predicate SafeToMark(s: World, a: Action, r: RowId, w: WorkflowId) {
    Kills(a) && w in s.live ==> Pending(s, w) || w in s.strays || HasOtherRow(s, w, r)
  }

  ghost predicate GoodPc(s: World, pc: Pc) {
    match pc
    case Inserting(c, w) => w.campaign == c
    case Signalling(c, a, t, w) => t.Some? ==> Carries(s, c, a, t.value, w)
    case Loading(c, a, t, w) =>
      t.Some? ==> w.Some? && Carries(s, c, a, t.value, w.value) && SafeToMark(s, a, t.value, w.value)
    case Saving(c, a, t, w) =>
      t.Some? ==> w.Some? && Carries(s, c, a, t.value, w.value) && SafeToMark(s, a, t.value, w.value)
    case Marking(c, a, r, w) => Carries(s, c, a, r, w) && SafeToMark(s, a, r, w)
    case _ => true
  }

  ghost predicate GoodHandlers(s: World) {
    forall h :: h in s.handlers ==> GoodPc(s, s.handlers[h])
  }

  ghost predicate AllCovered(s: World) {
    forall w :: w in s.live ==> Covered(s, w)
  }

  ghost predicate Inv(s: World) {
    OneActiveRow(s) && RowsNameTheirCampaign(s) && GoodHandlers(s) && AllCovered(s)
  }

  // ---------------------------------------------------------------- preservation, step by step

  predicate Settling(pc: Pc) { pc.Inserting? || pc.Reverting? }

  /** From `s` to `s'` workflows may have ended and handlers that settle nothing may have moved. */
  ghost predicate OnlyEnds(s: World, s': World) {
    && s'.rows == s.rows
    && s'.live <= s.live
    && s'.live * s.strays <= s'.strays
    && (forall k :: k in s.handlers && Settling(s.handlers[k]) ==>
          k in s'.handlers && s'.handlers[k] == s.handlers[k])
    && (forall k :: k in s'.handlers ==>
          (k in s.handlers && s.handlers[k] == s'.handlers[k]) || GoodPc(s', s'.handlers[k]))
  }

  lemma CoverSurvives(s: World, s': World)
    requires s'.rows == s.rows
    requires forall k :: k in s.handlers && Settling(s.handlers[k]) ==>
               k in s'.handlers && s'.handlers[k] == s.handlers[k]
    ensures forall w :: Pending(s, w) ==> Pending(s', w)
    ensures forall w :: HasRow(s, w) ==> HasRow(s', w)
    ensures forall w, r :: HasOtherRow(s, w, r) ==> HasOtherRow(s', w, r)
  {
    forall w | Pending(s, w) ensures Pending(s', w) {
      var k :| k in s.handlers && Settles(s.handlers[k], w);
      assert k in s'.handlers && Settles(s'.handlers[k], w);
    }
    forall w | HasRow(s, w) ensures HasRow(s', w) {
      var r :| IsActiveRow(s, r, w.campaign) && s.rows[r].workflow == w;
      assert IsActiveRow(s', r, w.campaign);
    }
    forall w, r | HasOtherRow(s, w, r) ensures HasOtherRow(s', w, r) {
      var q :| q != r && IsActiveRow(s, q, w.campaign) && s.rows[q].workflow == w;
      assert IsActiveRow(s', q, w.campaign);
    }
  }

  lemma OnlyEndsKeeps(s: World, s': World)
    requires Inv(s) && OnlyEnds(s, s')
    ensures Inv(s')
  {
    forall r, c | IsActiveRow(s', r, c) ensures IsActiveRow(s, r, c) {}
    CoverSurvives(s, s');
    forall k | k in s'.handlers ensures GoodPc(s', s'.handlers[k]) {
      if k in s.handlers { assert GoodPc(s, s.handlers[k]); }
    }
  }

  lemma StartKeeps(s: World, h: HandlerId, c: CampaignId, o: Outcome, tick: nat)
    requires Inv(s) && h in s.handlers && s.handlers[h] == Starting(c)
    ensures Inv(Advance(s, h, Starting(c), o, tick))
  {
    var s' := Advance(s, h, Starting(c), o, tick);
    var w := WorkflowId(c, tick);
    CoverSurvives(s, s');
    forall r, c | IsActiveRow(s', r, c) ensures IsActiveRow(s, r, c) {}
    if o.Ok? && w !in s.live { assert Settles(s'.handlers[h], w) && Pending(s', w); }
    forall k | k in s'.handlers ensures GoodPc(s', s'.handlers[k]) {
      if k != h { assert GoodPc(s, s.handlers[k]); }
    }
  }

  lemma InsertKeeps(s: World, h: HandlerId, c: CampaignId, w: WorkflowId, o: Outcome, tick: nat)
    requires Inv(s) && h in s.handlers && s.handlers[h] == Inserting(c, w) && tick !in s.rows
    ensures Inv(Advance(s, h, Inserting(c, w), o, tick))
  {
    var s' := Advance(s, h, Inserting(c, w), o, tick);
    assert GoodPc(s, s.handlers[h]);
    var added := !o.Failed? && !HasActive(s, c);
    if added { assert IsActiveRow(s', tick, c) && HasRow(s', w); }
    forall r, d | IsActiveRow(s', r, d) && r != tick ensures IsActiveRow(s, r, d) {}
    forall v | Pending(s, v) ensures Pending(s', v) || (added && v == w) {
      var k :| k in s.handlers && Settles(s.handlers[k], v);
      if k != h || !added || o.AckLost? { assert k in s'.handlers && Settles(s'.handlers[k], v); }
    }
    forall v | HasRow(s, v) ensures HasRow(s', v) {
      var r :| IsActiveRow(s, r, v.campaign) && s.rows[r].workflow == v;
      assert r in s.rows && IsActiveRow(s', r, v.campaign);
    }
    forall v, r | HasOtherRow(s, v, r) ensures HasOtherRow(s', v, r) {
      var q :| q != r && IsActiveRow(s, q, v.campaign) && s.rows[q].workflow == v;
      assert q in s.rows && IsActiveRow(s', q, v.campaign);
    }
    forall k | k in s'.handlers ensures GoodPc(s', s'.handlers[k]) {
      if k != h { assert GoodPc(s, s.handlers[k]); }
    }
  }

  lemma RevertKeeps(s: World, h: HandlerId, w: WorkflowId, o: Outcome, tick: nat)
    requires Inv(s) && h in s.handlers && s.handlers[h] == Reverting(w)
    ensures Inv(Advance(s, h, Reverting(w), o, tick))
  {
    var s' := Advance(s, h, Reverting(w), o, tick);
    forall r, c | IsActiveRow(s', r, c) ensures IsActiveRow(s, r, c) {}
    forall v | Pending(s, v) && v != w ensures Pending(s', v) {
      var k :| k in s.handlers && Settles(s.handlers[k], v);
      assert k in s'.handlers && Settles(s'.handlers[k], v);
    }
    forall v | HasRow(s, v) ensures HasRow(s', v) {
      var r :| IsActiveRow(s, r, v.campaign) && s.rows[r].workflow == v;
      assert IsActiveRow(s', r, v.campaign);
    }
    forall v, r | HasOtherRow(s, v, r) ensures HasOtherRow(s', v, r) {
      var q :| q != r && IsActiveRow(s, q, v.campaign) && s.rows[q].workflow == v;
      assert IsActiveRow(s', q, v.campaign);
    }
    forall k | k in s'.handlers ensures GoodPc(s', s'.handlers[k]) {
      assert GoodPc(s, s.handlers[k]);
    }
  }

  /** A row changes status, staying within the unique index. `gone` is a workflow that may lose
      its row by it: it must be dead, a stray, pending, or have another row. */
  lemma RowChangeKeeps(s: World, s': World, r: RowId, st: ExecutionStatus)
    requires Inv(s) && r in s.rows
    requires s' == s.(rows := s.rows[r := s.rows[r].(status := st)], strays := s'.strays)
    requires s.strays <= s'.strays
    requires !Collides(s, r, st)
    requires var v := s.rows[r].workflow;
             !IsActive(st) && v in s.live ==> Pending(s, v) || v in s'.strays || HasOtherRow(s, v, r)
    ensures Inv(s')
  {
    var v := s.rows[r].workflow;
    forall q, c | IsActiveRow(s', q, c) && q != r ensures IsActiveRow(s, q, c) {}
    forall w | Pending(s, w) ensures Pending(s', w) {
      var k :| k in s.handlers && Settles(s.handlers[k], w);
      assert k in s'.handlers && Settles(s'.handlers[k], w);
    }
    forall w, not | HasOtherRow(s, w, not) ensures HasOtherRow(s', w, not) || (w == v && !IsActive(st)) {
      var q :| q != not && IsActiveRow(s, q, w.campaign) && s.rows[q].workflow == w;
      if q != r || IsActive(st) { assert IsActiveRow(s', q, w.campaign); }
    }
    if HasOtherRow(s, v, r) {
      var q :| q != r && IsActiveRow(s, q, v.campaign) && s.rows[q].workflow == v;
      assert IsActiveRow(s', q, v.campaign) && !IsActiveRow(s, r, v.campaign);
    }
    forall w | w in s.live && HasRow(s, w) ensures Covered(s', w) {
      var q :| IsActiveRow(s, q, w.campaign) && s.rows[q].workflow == w;
      if q != r || IsActive(st) {
        assert IsActiveRow(s', q, w.campaign);
      }
    }
    forall k | k in s'.handlers ensures GoodPc(s', s'.handlers[k]) {
      assert GoodPc(s, s.handlers[k]);
      forall a, q | SafeToMark(s, a, q, v) ensures SafeToMark(s', a, q, v) {
        if Kills(a) && v in s.live && !IsActive(st) && HasOtherRow(s, v, q)
           && !Pending(s, v) && v !in s'.strays {
          var x :| x != r && IsActiveRow(s, x, v.campaign) && s.rows[x].workflow == v;
          var y :| y != q && IsActiveRow(s, y, v.campaign) && s.rows[y].workflow == v;
          assert x == y && IsActiveRow(s', x, v.campaign);
        }
      }
    }
  }

  lemma MarkKeeps(s: World, h: HandlerId, o: Outcome, tick: nat)
    requires Inv(s) && h in s.handlers && s.handlers[h].Marking?
    ensures Inv(Advance(s, h, s.handlers[h], o, tick))
  {
    var pc := s.handlers[h];
    assert GoodPc(s, pc);
    var s' := Advance(s, h, pc, o, tick);
    if o.Failed? || Collides(s, pc.r, RowTarget(pc.a)) {
      OnlyEndsKeeps(s, s');
    } else {
      var m := Marked(s, pc.a, pc.r, pc.w);
      RowChangeKeeps(s, m, pc.r, RowTarget(pc.a));
      OnlyEndsKeeps(m, s');
    }
  }

  lemma ReadKeeps(s: World, h: HandlerId, o: Outcome, tick: nat)
    requires Inv(s) && h in s.handlers && s.handlers[h].Reading?
    ensures Inv(Advance(s, h, s.handlers[h], o, tick))
  {
    var pc := s.handlers[h];
    var s' := Advance(s, h, pc, o, tick);
    if o.Ok? {
      var found := GetActive(s, pc.c);
      assert s' == AfterRead(s, h, pc.c, pc.a, found);
      assert h in s'.handlers ==> GoodPc(s', s'.handlers[h]);
    }
    OnlyEndsKeeps(s, s');
  }

  lemma SignalKeeps(s: World, h: HandlerId, o: Outcome, tick: nat)
    requires Inv(s) && h in s.handlers && s.handlers[h].Signalling?
    ensures Inv(Advance(s, h, s.handlers[h], o, tick))
  {
    var pc := s.handlers[h];
    assert GoodPc(s, pc);
    var s' := Advance(s, h, pc, o, tick);
    if o.Ok? { assert GoodPc(s', s'.handlers[h]); }
    OnlyEndsKeeps(s, s');
  }

  lemma LoadSaveKeeps(s: World, h: HandlerId, o: Outcome, tick: nat)
    requires Inv(s) && h in s.handlers && (s.handlers[h].Loading? || s.handlers[h].Saving?)
    ensures Inv(Advance(s, h, s.handlers[h], o, tick))
  {
    var pc := s.handlers[h];
    assert GoodPc(s, pc);
    var s' := Advance(s, h, pc, o, tick);
    CoverSurvives(s, s');
    assert h in s'.handlers ==> GoodPc(s', s'.handlers[h]);
    OnlyEndsKeeps(s, s');
  }

  lemma UndoKeeps(s: World, h: HandlerId, o: Outcome, tick: nat)
    requires Inv(s) && h in s.handlers && s.handlers[h].Undoing?
    ensures Inv(Advance(s, h, s.handlers[h], o, tick))
  {
    OnlyEndsKeeps(s, Advance(s, h, s.handlers[h], o, tick));
  }

  lemma EditKeeps(s: World, h: HandlerId, o: Outcome, tick: nat)
    requires Inv(s) && h in s.handlers && (s.handlers[h].Fetching? || s.handlers[h].Writing?)
    ensures Inv(Advance(s, h, s.handlers[h], o, tick))
  {
    var s' := Advance(s, h, s.handlers[h], o, tick);
    assert h in s'.handlers ==> GoodPc(s', s'.handlers[h]);
    OnlyEndsKeeps(s, s');
  }

  lemma MoveKeeps(s: World, h: HandlerId, o: Outcome, tick: nat)
    requires Inv(s) && Enabled(s, Move(h, o, tick))
    ensures Inv(Apply(s, Move(h, o, tick)))
  {
    match s.handlers[h]
    case Checking(c) => OnlyEndsKeeps(s, Advance(s, h, Checking(c), o, tick));
    case Starting(c) => StartKeeps(s, h, c, o, tick);
    case Inserting(c, w) => InsertKeeps(s, h, c, w, o, tick);
    case Reverting(w) => RevertKeeps(s, h, w, o, tick);
    case Reading(_, _) => ReadKeeps(s, h, o, tick);
    case Signalling(_, _, _, _) => SignalKeeps(s, h, o, tick);
    case Loading(_, _, _, _) => LoadSaveKeeps(s, h, o, tick);
    case Saving(_, _, _, _) => LoadSaveKeeps(s, h, o, tick);
    case Marking(_, _, _, _) => MarkKeeps(s, h, o, tick);
    case Undoing(_, _) => UndoKeeps(s, h, o, tick);
    case Fetching(_, _) => EditKeeps(s, h, o, tick);
    case Writing(_, _) => EditKeeps(s, h, o, tick);
  }

  lemma StepKeeps(s: World, e: Event)
    requires Inv(s) && Enabled(s, e)
    ensures Inv(Apply(s, e))
  {
    match e
    case Move(h, o, tick) => MoveKeeps(s, h, o, tick);
    case RowCloses(r, how) => RowChangeKeeps(s, Apply(s, e), r, how);
    case _ => OnlyEndsKeeps(s, Apply(s, e));
  }

  lemma {:induction false} RunKeeps(s: World, run: seq<Event>)
    requires Inv(s) && CanRun(s, run)
    ensures Inv(Run(s, run))
    decreases |run|
  {
    if run != [] {
      StepKeeps(s, run[0]);
      RunKeeps(Apply(s, run[0]), run[1..]);
    }
  }

  // ---------------------------------------------------------------- the theorems

  /** Over every interleaving, from an empty system: a live workflow has an active execution row, or
      its execute handler has yet to settle it, or it is one of the recorded strays. */
  lemma LiveWorkflowsAreCovered(s: World, run: seq<Event>)
    requires Init(s) && CanRun(s, run)
    ensures AllCovered(Run(s, run)) && OneActiveRow(Run(s, run))
  {
    RunKeeps(s, run);
  }

  /** The three ways a step can strand a workflow: a start whose acknowledgement is lost, a
      compensating cancel that fails, and a cancel request that names a foreign workflow. */
  ghost predicate Strands(s: World, e: Event) {
    e.Move? && e.h in s.handlers && match s.handlers[e.h]
      case Starting(_) => e.o.AckLost?
      case Reverting(_) => e.o.Failed?
      case Marking(_, a, r, w) => Kills(a) && r in s.rows && w != s.rows[r].workflow
      case _ => false
  }

  ghost predicate StrandsNothing(s: World, run: seq<Event>)
    requires CanRun(s, run)
    decreases |run|
  {
    run == [] || (!Strands(s, run[0]) && StrandsNothing(Apply(s, run[0]), run[1..]))
  }

  lemma {:induction false} StrandsNothingKeepsNoStrays(s: World, run: seq<Event>)
    requires CanRun(s, run) && StrandsNothing(s, run) && s.strays == {}
    ensures Run(s, run).strays == {}
    decreases |run|
  {
    if run != [] {
      assert Apply(s, run[0]).strays == {};
      StrandsNothingKeepsNoStrays(Apply(s, run[0]), run[1..]);
    }
  }

  /** At rest, and when no step stranded a workflow, a campaign has at most one live workflow, and
      the campaign's one active row names it. */
  lemma AtMostOneLiveWorkflow(s: World, run: seq<Event>, v: WorkflowId, w: WorkflowId)
    requires Init(s) && CanRun(s, run) && StrandsNothing(s, run)
    requires Run(s, run).handlers == map[]
    requires v in Run(s, run).live && w in Run(s, run).live && v.campaign == w.campaign
    ensures v == w && HasRow(Run(s, run), v)
  {
    RunKeeps(s, run);
    StrandsNothingKeepsNoStrays(s, run);
    var end := Run(s, run);
    assert Covered(end, v) && Covered(end, w);
    var r :| IsActiveRow(end, r, v.campaign) && end.rows[r].workflow == v;
    var q :| IsActiveRow(end, q, w.campaign) && end.rows[q].workflow == w;
    assert r == q;
  }

  // ---------------------------------------------------------------- rows without a workflow

  /** An active row whose workflow is dead. While it is there every execute request is refused. */
  predicate IsHollow(s: World, r: RowId) {
    r in s.rows && IsActive(s.rows[r].status) && s.rows[r].workflow !in s.live
  }

  /** The row is active and names this workflow. */
  predicate Names(s: World, r: RowId, w: WorkflowId) {
    r in s.rows && IsActive(s.rows[r].status) && s.rows[r].workflow == w
  }

  /** The steps that leave row `r` without its workflow: the workflow ends, or a stop, a cancel or a
      compensating cancel reaches it, while the row is active; an insert whose workflow is dead by then;
      and a pause or resume that makes a closed row active again. */
  ghost predicate Hollows(s: World, e: Event, r: RowId) {
    match e
    case WorkflowEnds(w) => w in s.live && Names(s, r, w)
    case Move(h, o, tick) =>
      h in s.handlers && !o.Failed? &&
      (match s.handlers[h]
       case Signalling(_, a, _, w) => Kills(a) && w in s.live && Names(s, r, w)
       case Reverting(w) => w in s.live && Names(s, r, w)
       case Inserting(c, w) => !HasActive(s, c) && r == tick && w !in s.live
       case Marking(_, a, q, _) =>
         r == q && q in s.rows && !Kills(a) && !Collides(s, q, RowTarget(a))
         && !IsActive(s.rows[q].status) && s.rows[q].workflow !in s.live
       case _ => false)
    case _ => false
  }

  lemma MoveHollows(s: World, h: HandlerId, o: Outcome, tick: nat, r: RowId)
    requires Enabled(s, Move(h, o, tick))
    ensures !IsHollow(s, r) && IsHollow(Apply(s, Move(h, o, tick)), r) <==>
              !IsHollow(s, r) && Hollows(s, Move(h, o, tick), r)
  {
    match s.handlers[h]
    case Checking(_) =>
    case Starting(_) =>
    case Inserting(_, _) =>
    case Reverting(_) =>
    case Reading(_, _) =>
    case Signalling(_, _, _, _) =>
    case Loading(_, _, _, _) =>
    case Saving(_, _, _, _) =>
    case Marking(_, _, _, _) =>
    case Undoing(_, _) =>
    case Fetching(_, _) =>
    case Writing(_, _) =>
  }

  /** A step leaves a row without its workflow if and only if it is one of those. */
  lemma BecomesHollowIff(s: World, e: Event, r: RowId)
    requires Enabled(s, e) && !IsHollow(s, r)
    ensures IsHollow(Apply(s, e), r) <==> Hollows(s, e, r)
  {
    if e.Move? { MoveHollows(s, e.h, e.o, e.tick, r); }
  }

  /** The state after the first `i` events of a run. */
  ghost function StateAt(s: World, run: seq<Event>, i: nat): World
    requires CanRun(s, run) && i <= |run|
    decreases i
  {
    if i == 0 then s else StateAt(Apply(s, run[0]), run[1..], i - 1)
  }

  /** The converse of coverage, over every interleaving: an active row names a live workflow, or one of
      those steps of the run left it without. */
  lemma {:induction false} ActiveRowsNameLiveWorkflows(s: World, run: seq<Event>, r: RowId)
    requires CanRun(s, run) && !IsHollow(s, r) && IsHollow(Run(s, run), r)
    ensures exists i :: 0 <= i < |run| && Hollows(StateAt(s, run, i), run[i], r)
    decreases |run|
  {
    if run != [] {
      var t := Apply(s, run[0]);
      BecomesHollowIff(s, run[0], r);
      if IsHollow(t, r) {
        assert StateAt(s, run, 0) == s && Hollows(StateAt(s, run, 0), run[0], r);
      } else {
        ActiveRowsNameLiveWorkflows(t, run[1..], r);
        var i :| 0 <= i < |run[1..]| && Hollows(StateAt(t, run[1..], i), run[1..][i], r);
        assert StateAt(s, run, i + 1) == StateAt(t, run[1..], i) && run[i + 1] == run[1..][i];
      }
    }
  }

  /** From an empty system, a row that is active while none of those steps has happened to it names a
      live workflow. */
  lemma UntouchedRowsAreLive(s: World, run: seq<Event>, r: RowId, c: CampaignId)
    requires Init(s) && CanRun(s, run) && IsActiveRow(Run(s, run), r, c)
    requires forall i :: 0 <= i < |run| ==> !Hollows(StateAt(s, run, i), run[i], r)
    ensures Run(s, run).rows[r].workflow in Run(s, run).live
  {
    if IsHollow(Run(s, run), r) { ActiveRowsNameLiveWorkflows(s, run, r); }
  }

  /** What a hollow row does: an execute request of its campaign starts nothing, however often it is
      repeated while the row stays active. */
  lemma HollowRowRefusesExecution(s: World, r: RowId, h: HandlerId, o: Outcome, tick: nat)
    requires IsHollow(s, r) && h in s.handlers && s.handlers[h] == Checking(s.rows[r].campaign)
    ensures Apply(s, Move(h, o, tick)) == Done(s, h) && IsHollow(Done(s, h), r)
  {
    assert IsActiveRow(s, r, s.rows[r].campaign);
  }

  /** An execute request whose insert is stored without its acknowledgement, and whose compensating
      cancel then goes through: the campaign is left with a row that blocks it and no workflow. */
  function ExecuteWithLostInsert(c: CampaignId): seq<Event> {
    [Execute(1, c), Move(1, Ok, 0), Move(1, Ok, 0), Move(1, AckLost, 0), Move(1, Ok, 0)]
  }

  /** One handler from request to response, every call succeeding. */
  function Smooth(h: HandlerId, c: CampaignId, a: Action): seq<Event> {
    var m := Move(h, Ok, 0);
    [Request(h, c, a), m, m, m, m, m]
  }

  /** One step, as a relation. */
  ghost predicate StepsTo(s: World, e: Event, t: World) { Enabled(s, e) && Apply(s, e) == t }

  lemma Then(s: World, e: Event, t: World, rest: seq<Event>)
    requires StepsTo(s, e, t) && CanRun(t, rest)
    ensures CanRun(s, [e] + rest) && Run(s, [e] + rest) == Run(t, rest)
  {
    assert ([e] + rest)[0] == e && ([e] + rest)[1..] == rest;
  }

  lemma RunSix(s: World, h: HandlerId, c: CampaignId, a: Action,
               s0: World, s1: World, s2: World, s3: World, s4: World, s5: World)
    requires StepsTo(s, Request(h, c, a), s0)
    requires StepsTo(s0, Move(h, Ok, 0), s1) && StepsTo(s1, Move(h, Ok, 0), s2)
    requires StepsTo(s2, Move(h, Ok, 0), s3) && StepsTo(s3, Move(h, Ok, 0), s4)
    requires StepsTo(s4, Move(h, Ok, 0), s5)
    ensures CanRun(s, Smooth(h, c, a)) && Run(s, Smooth(h, c, a)) == s5
  {
    var m := Move(h, Ok, 0);
    Then(s4, m, s5, []);
    assert [m] + [] == [m];
    Then(s3, m, s4, [m]);
    Then(s2, m, s3, [m] + [m]);
    Then(s1, m, s2, [m] + ([m] + [m]));
    Then(s0, m, s1, [m] + ([m] + ([m] + [m])));
    Then(s, Request(h, c, a), s0, [m] + ([m] + ([m] + ([m] + [m]))));
    assert [Request(h, c, a)] + ([m] + ([m] + ([m] + ([m] + [m])))) == Smooth(h, c, a);
  }

  /** A world with the single handler `h`. */
  function Alone(s: World, h: HandlerId, pc: Pc): World { s.(handlers := map[h := pc]) }

  lemma SmoothSignal(s: World, h: HandlerId, c: CampaignId, a: Action, r: RowId)
    requires OneActiveRow(s) && Kills(a) && IsActiveRow(s, r, c)
    ensures var w := if a.Cancel? && a.body.Some? then a.body.value else s.rows[r].workflow;
            var s1 := Apply(Alone(s, h, Reading(c, a)), Move(h, Ok, 0));
            && s1 == Alone(s, h, Signalling(c, a, Some(r), w))
            && Apply(s1, Move(h, Ok, 0)) == Alone(Kill(s, w), h, Loading(c, a, Some(r), Some(w)))
  {
    var s0 := Alone(s, h, Reading(c, a));
    assert IsActiveRow(s0, r, c) && HasActive(s0, c);
    var q := GetActive(s0, c);
    assert IsActiveRow(s, q.value, c) && q == Some(r);
    var w := if a.Cancel? && a.body.Some? then a.body.value else s.rows[r].workflow;
    var s1 := Apply(s0, Move(h, Ok, 0));
    assert s1 == AfterRead(s0, h, c, a, Some(r));
    assert s1 == Alone(s, h, Signalling(c, a, Some(r), w));
  }

  lemma SmoothSave(s: World, h: HandlerId, c: CampaignId, a: Action, r: RowId, w: WorkflowId)
    requires Kills(a) && r in s.rows && c in s.status && C.Allowed(C.Stop, s.status[c])
    ensures var s3 := Apply(Alone(s, h, Loading(c, a, Some(r), Some(w))), Move(h, Ok, 0));
            && s3 == Alone(s, h, Saving(c, a, Some(r), Some(w)))
            && Apply(s3, Move(h, Ok, 0)) == Alone(s.(status := s.status[c := C.Stopped]), h, Marking(c, a, r, w))
  {
    var s3 := Alone(s, h, Saving(c, a, Some(r), Some(w)));
    assert Apply(Alone(s, h, Loading(c, a, Some(r), Some(w))), Move(h, Ok, 0)) == s3;
    assert Apply(s3, Move(h, Ok, 0)) == Alone(s.(status := s.status[c := C.Stopped]), h, Marking(c, a, r, w));
  }

  lemma SmoothMark(s: World, h: HandlerId, c: CampaignId, a: Action, r: RowId, w: WorkflowId)
    requires Kills(a) && r in s.rows
    ensures Apply(Alone(s, h, Marking(c, a, r, w)), Move(h, Ok, 0)) == Marked(s, a, r, w).(handlers := map[])
  {
    var s4 := Alone(s, h, Marking(c, a, r, w));
    assert !Collides(s4, r, RowTarget(a));
    assert Apply(s4, Move(h, Ok, 0)) == Done(Marked(s4, a, r, w), h);
  }

  lemma SmoothKill(s: World, h: HandlerId, c: CampaignId, a: Action, r: RowId)
    requires OneActiveRow(s) && s.handlers == map[] && Kills(a)
    requires IsActiveRow(s, r, c) && c in s.status && C.Allowed(C.Stop, s.status[c])
    ensures CanRun(s, Smooth(h, c, a))
    ensures var end := Run(s, Smooth(h, c, a));
            var w := if a.Cancel? && a.body.Some? then a.body.value else s.rows[r].workflow;
            && end.handlers == map[] && end.live == s.live - {w}
            && end.rows == s.rows[r := s.rows[r].(status := Cancelled)]
  {
    var w := if a.Cancel? && a.body.Some? then a.body.value else s.rows[r].workflow;
    var s0 := Alone(s, h, Reading(c, a));
    assert Apply(s, Request(h, c, a)) == s0;
    SmoothSignal(s, h, c, a, r);
    var k := Kill(s, w);
    SmoothSave(k, h, c, a, r, w);
    var s1 := Alone(s, h, Signalling(c, a, Some(r), w));
    var s2 := Alone(k, h, Loading(c, a, Some(r), Some(w)));
    var s3 := Alone(k, h, Saving(c, a, Some(r), Some(w)));
    var t := k.(status := k.status[c := C.Stopped]);
    var s4 := Alone(t, h, Marking(c, a, r, w));
    SmoothMark(t, h, c, a, r, w);
    RunSix(s, h, c, a, s0, s1, s2, s3, s4, Marked(t, a, r, w).(handlers := map[]));
  }

  /** A smooth cancel of a running campaign leaves no live workflow, if and only if the request
      names no workflow or names the one in the active row. */
  lemma CancelEndsTheCampaignIff(s: World, h: HandlerId, c: CampaignId, body: Option<WorkflowId>, r: RowId)
    requires Inv(s) && s.handlers == map[] && s.strays == {}
    requires IsActiveRow(s, r, c) && s.rows[r].workflow in s.live
    requires c in s.status && C.Allowed(C.Stop, s.status[c])
    ensures CanRun(s, Smooth(h, c, Cancel(body)))
    ensures var end := Run(s, Smooth(h, c, Cancel(body)));
            (forall v :: v in end.live ==> v.campaign != c)
              <==> body.None? || body.value == s.rows[r].workflow
    ensures var end := Run(s, Smooth(h, c, Cancel(body)));
            (forall v :: v in end.live && v.campaign == c ==> Accounted(end, v))
              <==> body.None? || body.value == s.rows[r].workflow
  {
    SmoothKill(s, h, c, Cancel(body), r);
    var end := Run(s, Smooth(h, c, Cancel(body)));
    var own := s.rows[r].workflow;
    forall v | v in s.live && v.campaign == c ensures v == own {
      assert Covered(s, v);
      var q :| IsActiveRow(s, q, v.campaign) && s.rows[q].workflow == v;
      assert q == r;
    }
    if HasRow(end, own) {
      var q :| IsActiveRow(end, q, own.campaign) && end.rows[q].workflow == own;
      assert q != r && IsActiveRow(s, q, c);
      assert false;
    }
    assert !Accounted(end, own);
  }

  // ---------------------------------------------------------------- when a final status is final

  /** The status that a handler has decided on and will save next. */
  function SaveDue(pc: Pc, c: CampaignId): Option<C.Status> {
    match pc
    case Saving(d, a, _, _) => if d == c then Some(C.Target(CampaignVerb(a))) else None
    case Writing(d, st) => if d == c then Some(st) else None
    case _ => None
  }

  /** A handler loaded the campaign some time ago and is about to save another status than it has now. */
  ghost predicate OverwriteIsDue(s: World, c: CampaignId, h: HandlerId) {
    c in s.status && h in s.handlers && SaveDue(s.handlers[h], c).Some? && SaveDue(s.handlers[h], c).value != s.status[c]
  }

  predicate IsFinal(st: C.Status) { st == C.Stopped || st == C.Completed }

  /** The workers write the campaign's status column with an UPDATE of their own, which no load
      precedes; these runs are without it. Every other call that writes it is a handler here. */
  ghost predicate Untouched(run: seq<Event>, c: CampaignId) {
    forall e :: e in run && e.CampaignWritten? ==> e.c != c
  }

  /** The campaign has a final status, and no handler is about to save over it. */
  ghost predicate Settled(s: World, c: CampaignId) {
    c in s.status && IsFinal(s.status[c]) && forall h :: !OverwriteIsDue(s, c, h)
  }

  lemma MoveTouchesItsHandler(s: World, h: HandlerId, o: Outcome, tick: nat)
    requires h in s.handlers
    ensures var s' := Advance(s, h, s.handlers[h], o, tick);
            s'.handlers == s.handlers - {h} || (h in s'.handlers && s'.handlers == s.handlers[h := s'.handlers[h]])
  {
    match s.handlers[h]
    case Checking(_) => case Starting(_) => case Inserting(_, _) => case Reverting(_) =>
    case Reading(_, _) => case Signalling(_, _, _, _) => case Loading(_, _, _, _) => case Saving(_, _, _, _) =>
    case Marking(_, _, _, _) => case Undoing(_, _) => case Fetching(_, _) => case Writing(_, _) =>
  }

  /** A move changes a status only to what its handler was about to save. */
  lemma MoveSavesWhatIsDue(s: World, h: HandlerId, o: Outcome, tick: nat, c: CampaignId)
    requires h in s.handlers && c in s.status
    ensures var s' := Advance(s, h, s.handlers[h], o, tick);
            && c in s'.status
            && (s'.status[c] == s.status[c] || SaveDue(s.handlers[h], c) == Some(s'.status[c]))
  {
    match s.handlers[h]
    case Checking(_) => case Starting(_) => case Inserting(_, _) => case Reverting(_) =>
    case Reading(_, _) => case Signalling(_, _, _, _) => case Loading(_, _, _, _) => case Saving(_, _, _, _) =>
    case Marking(_, _, _, _) => case Undoing(_, _) => case Fetching(_, _) => case Writing(_, _) =>
  }

  /** What a handler decides to save respects the guard on the status it loads. */
  lemma MoveDecidesByTheGuard(s: World, h: HandlerId, o: Outcome, tick: nat, c: CampaignId)
    requires h in s.handlers && c in s.status
    ensures var s' := Advance(s, h, s.handlers[h], o, tick);
            h in s'.handlers && SaveDue(s'.handlers[h], c).Some? ==>
              var st := SaveDue(s'.handlers[h], c).value;
              || (exists v: C.Verb :: C.Allowed(v, s.status[c]) && st == C.Target(v))
              || (exists edit: Edit :: Chosen(edit, s.status[c]) == Some(st))
  {
    match s.handlers[h]
    case Loading(d, a, t, w) =>
    case Fetching(d, edit) =>
    case _ =>
  }

  lemma MoveKeepsSettled(s: World, h: HandlerId, o: Outcome, tick: nat, c: CampaignId)
    requires Settled(s, c) && h in s.handlers
    ensures var s' := Advance(s, h, s.handlers[h], o, tick);
            Settled(s', c) && s'.status[c] == s.status[c]
  {
    var s' := Advance(s, h, s.handlers[h], o, tick);
    MoveTouchesItsHandler(s, h, o, tick);
    MoveSavesWhatIsDue(s, h, o, tick, c);
    MoveDecidesByTheGuard(s, h, o, tick, c);
    assert !OverwriteIsDue(s, c, h);
    forall k ensures !OverwriteIsDue(s', c, k) {
      assert !OverwriteIsDue(s, c, k);
    }
  }

  lemma StepKeepsSettled(s: World, e: Event, c: CampaignId)
    requires Settled(s, c) && Enabled(s, e) && (e.CampaignWritten? ==> e.c != c)
    ensures Settled(Apply(s, e), c) && Apply(s, e).status[c] == s.status[c]
  {
    if e.Move? {
      MoveKeepsSettled(s, e.h, e.o, e.tick, c);
    } else {
      forall k ensures !OverwriteIsDue(Apply(s, e), c, k) {
        assert !OverwriteIsDue(s, c, k);
      }
    }
  }

  lemma {:induction false} RunKeepsSettled(s: World, run: seq<Event>, c: CampaignId)
    requires Settled(s, c) && CanRun(s, run) && Untouched(run, c)
    ensures Settled(Run(s, run), c) && Run(s, run).status[c] == s.status[c]
    decreases |run|
  {
    if run != [] {
      StepKeepsSettled(s, run[0], c);
      RunKeepsSettled(Apply(s, run[0]), run[1..], c);
    }
  }

  /** Every run of the handlers leaves the campaign in its status. */
  ghost predicate StaysForever(s: World, c: CampaignId)
    requires c in s.status
  {
    forall run | CanRun(s, run) && Untouched(run, c) ::
      c in Run(s, run).status && Run(s, run).status[c] == s.status[c]
  }

  /** STOPPED and COMPLETED are final from a state on, over every interleaving, if and only if no
      handler is about to save another status over them. */
  lemma FinalUnderOverlapIff(s: World, c: CampaignId)
    requires c in s.status && IsFinal(s.status[c])
    ensures StaysForever(s, c) <==> !exists h :: OverwriteIsDue(s, c, h)
  {
    if h :| OverwriteIsDue(s, c, h) {
      var run := [Move(h, Ok, 0)];
      var t := Apply(s, run[0]);
      assert CanRun(t, run[1..]) && Run(s, run) == t;
      assert CanRun(s, run) && Untouched(run, c);
      assert Run(s, run).status[c] == SaveDue(s.handlers[h], c).value;
    } else {
      forall run | CanRun(s, run) && Untouched(run, c)
        ensures c in Run(s, run).status && Run(s, run).status[c] == s.status[c]
      {
        RunKeepsSettled(s, run, c);
      }
    }
  }

  /** One campaign whose single execution row, if it is `live`, drives one live workflow. */
  function Solo(c: CampaignId, row: ExecutionStatus, live: bool, st: C.Status, hs: map<HandlerId, Pc>): World {
    var w := WorkflowId(c, 0);
    World(map[0 := Execution(c, w, row)], if live then {w} else {}, {w}, map[c := st], hs, {})
  }

  lemma SoloRow(c: CampaignId, row: ExecutionStatus, live: bool, st: C.Status, hs: map<HandlerId, Pc>)
    ensures var s := Solo(c, row, live, st, hs);
            GetActive(s, c) == (if IsActive(row) then Some(0) else None) && !Collides(s, 0, Paused)
  {
    var s := Solo(c, row, live, st, hs);
    assert IsActive(row) ==> IsActiveRow(s, 0, c);
    assert forall r :: r in s.rows ==> r == 0;
  }

  /** The pause handler that has loaded SENDING and is about to save PAUSED. */
  function HeldPause(c: CampaignId): Pc { Saving(c, Pause, Some(0), Some(WorkflowId(c, 0))) }

  function StopAt(c: CampaignId, pc: Pc): map<HandlerId, Pc> { map[1 := HeldPause(c), 2 := pc] }

  lemma StopInsidePauseSignals(c: CampaignId)
    ensures var w := WorkflowId(c, 0);
            var m := Move(2, Ok, 0);
            var s0 := Solo(c, Running, true, C.Sending, StopAt(c, Reading(c, Stop)));
            var s1 := Solo(c, Running, true, C.Sending, StopAt(c, Signalling(c, Stop, Some(0), w)));
            var s2 := Solo(c, Running, false, C.Sending, StopAt(c, Loading(c, Stop, Some(0), Some(w))));
            && StepsTo(Solo(c, Running, true, C.Sending, map[1 := HeldPause(c)]), Request(2, c, Stop), s0)
            && StepsTo(s0, m, s1) && StepsTo(s1, m, s2)
  {
    SoloRow(c, Running, true, C.Sending, StopAt(c, Reading(c, Stop)));
  }

  lemma StopInsidePauseSaves(c: CampaignId)
    ensures var w := WorkflowId(c, 0);
            var m := Move(2, Ok, 0);
            var s2 := Solo(c, Running, false, C.Sending, StopAt(c, Loading(c, Stop, Some(0), Some(w))));
            var s3 := Solo(c, Running, false, C.Sending, StopAt(c, Saving(c, Stop, Some(0), Some(w))));
            var s4 := Solo(c, Running, false, C.Stopped, StopAt(c, Marking(c, Stop, 0, w)));
            && StepsTo(s2, m, s3) && StepsTo(s3, m, s4)
            && StepsTo(s4, m, Solo(c, Cancelled, false, C.Stopped, map[1 := HeldPause(c)]))
  {
  }

  /** A stop that runs from start to end while a pause holds the status it loaded. */
  lemma StopInsidePause(c: CampaignId)
    ensures var s := Solo(c, Running, true, C.Sending, map[1 := HeldPause(c)]);
            && CanRun(s, Smooth(2, c, Stop))
            && Run(s, Smooth(2, c, Stop)) == Solo(c, Cancelled, false, C.Stopped, map[1 := HeldPause(c)])
  {
    var w := WorkflowId(c, 0);
    StopInsidePauseSignals(c);
    StopInsidePauseSaves(c);
    RunSix(Solo(c, Running, true, C.Sending, map[1 := HeldPause(c)]), 2, c, Stop,
           Solo(c, Running, true, C.Sending, StopAt(c, Reading(c, Stop))),
           Solo(c, Running, true, C.Sending, StopAt(c, Signalling(c, Stop, Some(0), w))),
           Solo(c, Running, false, C.Sending, StopAt(c, Loading(c, Stop, Some(0), Some(w)))),
           Solo(c, Running, false, C.Sending, StopAt(c, Saving(c, Stop, Some(0), Some(w)))),
           Solo(c, Running, false, C.Stopped, StopAt(c, Marking(c, Stop, 0, w))),
           Solo(c, Cancelled, false, C.Stopped, map[1 := HeldPause(c)]));
  }

  /** The rest of the pause and then an execute request. */
  function PauseThenExecute(c: CampaignId): seq<Event> {
    var m := Move(1, Ok, 0);
    [m, m, Execute(1, c), m]
  }

  /** What the pause does when it goes on after that stop: the campaign leaves STOPPED, the
      cancelled row is active again with no live workflow behind it, and executing is refused. */
  lemma PauseResumedAfterStop(c: CampaignId)
    ensures var s := Solo(c, Cancelled, false, C.Stopped, map[1 := HeldPause(c)]);
            && CanRun(s, PauseThenExecute(c))
            && Run(s, PauseThenExecute(c)) == Solo(c, Paused, false, C.Paused, map[])
  {
    var w := WorkflowId(c, 0);
    var m := Move(1, Ok, 0);
    var s := Solo(c, Cancelled, false, C.Stopped, map[1 := HeldPause(c)]);
    var s1 := Solo(c, Cancelled, false, C.Paused, map[1 := Marking(c, Pause, 0, w)]);
    var s2 := Solo(c, Paused, false, C.Paused, map[]);
    var s3 := Solo(c, Paused, false, C.Paused, map[1 := Checking(c)]);
    SoloRow(c, Cancelled, false, C.Paused, map[1 := Marking(c, Pause, 0, w)]);
    SoloRow(c, Paused, false, C.Paused, map[1 := Checking(c)]);
    assert StepsTo(s3, m, s2);
    Then(s3, m, s2, []);
    assert [m] + [] == [m];
    assert StepsTo(s2, Execute(1, c), s3);
    Then(s2, Execute(1, c), s3, [m]);
    assert StepsTo(s1, m, s2);
    Then(s1, m, s2, [Execute(1, c)] + [m]);
    assert StepsTo(s, m, s1);
    Then(s, m, s1, [m] + ([Execute(1, c)] + [m]));
    assert [m] + ([m] + ([Execute(1, c)] + [m])) == PauseThenExecute(c);
  }

  /** A chain of steps is a run. */
  lemma {:induction false} RunOf(ss: seq<World>, es: seq<Event>)
    requires |ss| == |es| + 1 && forall i :: 0 <= i < |es| ==> StepsTo(ss[i], es[i], ss[i + 1])
    ensures CanRun(ss[0], es) && Run(ss[0], es) == ss[|es|]
    decreases |es|
  {
    if es != [] {
      assert StepsTo(ss[0], es[0], ss[1]);
      forall i | 0 <= i < |es| - 1 ensures StepsTo(ss[1..][i], es[1..][i], ss[1..][i + 1]) {
        assert StepsTo(ss[i + 1], es[i + 1], ss[i + 2]);
      }
      RunOf(ss[1..], es[1..]);
    }
  }

  /** A draft campaign, before anything has happened. */
  function Blank(c: CampaignId): World { World(map[], {}, {}, map[c := C.Draft], map[], {}) }

  function Executed(c: CampaignId, st: C.Status, hs: map<HandlerId, Pc>): World {
    var w := WorkflowId(c, 0);
    World(map[0 := Execution(c, w, Running)], {w}, {}, map[c := st], hs, {})
  }

  function ExecuteOnce(c: CampaignId): seq<Event> {
    [Execute(1, c), Move(1, Ok, 0), Move(1, Ok, 0), Move(1, Ok, 0)]
  }

  lemma ExecuteOnceRuns(c: CampaignId)
    ensures CanRun(Blank(c), ExecuteOnce(c)) && Run(Blank(c), ExecuteOnce(c)) == Executed(c, C.Draft, map[])
  {
    var w := WorkflowId(c, 0);
    var s1 := Blank(c).(handlers := map[1 := Checking(c)]);
    var s2 := Blank(c).(handlers := map[1 := Starting(c)]);
    var s3 := Blank(c).(live := {w}, handlers := map[1 := Inserting(c, w)]);
    assert StepsTo(Blank(c), Execute(1, c), s1) && StepsTo(s1, Move(1, Ok, 0), s2);
    assert StepsTo(s2, Move(1, Ok, 0), s3) && StepsTo(s3, Move(1, Ok, 0), Executed(c, C.Draft, map[]));
    RunOf([Blank(c), s1, s2, s3, Executed(c, C.Draft, map[])], ExecuteOnce(c));
  }

  lemma LostInsertLeavesAHollowRow(c: CampaignId)
    ensures Init(Blank(c)) && CanRun(Blank(c), ExecuteWithLostInsert(c))
    ensures var end := Run(Blank(c), ExecuteWithLostInsert(c));
            end.handlers == map[] && end.live == {} && IsHollow(end, 0) && end.rows[0].campaign == c
  {
    var w := WorkflowId(c, 0);
    var s1 := Blank(c).(handlers := map[1 := Checking(c)]);
    var s2 := Blank(c).(handlers := map[1 := Starting(c)]);
    var s3 := Blank(c).(live := {w}, handlers := map[1 := Inserting(c, w)]);
    var s4 := Executed(c, C.Draft, map[1 := Reverting(w)]);
    var s5 := Executed(c, C.Draft, map[]).(live := {});
    assert StepsTo(Blank(c), Execute(1, c), s1) && StepsTo(s1, Move(1, Ok, 0), s2);
    assert StepsTo(s2, Move(1, Ok, 0), s3) && StepsTo(s3, Move(1, AckLost, 0), s4) && StepsTo(s4, Move(1, Ok, 0), s5);
    RunOf([Blank(c), s1, s2, s3, s4, s5], ExecuteWithLostInsert(c));
  }

  /** An execute request whose workflow has handed the campaign over, and ended, before its row is
      inserted: closing the row came too early to find it. */
  function ExecuteWithEarlyEnd(c: CampaignId): seq<Event> {
    [Execute(1, c), Move(1, Ok, 0), Move(1, Ok, 0), WorkflowEnds(WorkflowId(c, 0)), Move(1, Ok, 0)]
  }

  lemma EarlyEndLeavesAHollowRow(c: CampaignId)
    ensures Init(Blank(c)) && CanRun(Blank(c), ExecuteWithEarlyEnd(c))
    ensures var end := Run(Blank(c), ExecuteWithEarlyEnd(c));
            end.handlers == map[] && end.live == {} && IsHollow(end, 0) && end.rows[0].campaign == c
  {
    var w := WorkflowId(c, 0);
    var s1 := Blank(c).(handlers := map[1 := Checking(c)]);
    var s2 := Blank(c).(handlers := map[1 := Starting(c)]);
    var s3 := Blank(c).(live := {w}, handlers := map[1 := Inserting(c, w)]);
    var s4 := Blank(c).(handlers := map[1 := Inserting(c, w)]);
    var s5 := Executed(c, C.Draft, map[]).(live := {});
    assert StepsTo(Blank(c), Execute(1, c), s1) && StepsTo(s1, Move(1, Ok, 0), s2);
    assert StepsTo(s2, Move(1, Ok, 0), s3) && StepsTo(s3, WorkflowEnds(w), s4) && StepsTo(s4, Move(1, Ok, 0), s5);
    RunOf([Blank(c), s1, s2, s3, s4, s5], ExecuteWithEarlyEnd(c));
  }

  /** An update that only renames the campaign loads it, a stop runs, and the update saves. */
  function RenameAroundStop(c: CampaignId): seq<Event> {
    var m := Move(2, Ok, 0);
    [Submit(1, c, Change(None)), Move(1, Ok, 0), Request(2, c, Stop), m, m, m, Move(1, Ok, 0)]
  }

  /** The blank campaign with a status and handlers. */
  function BlankWith(c: CampaignId, st: C.Status, hs: map<HandlerId, Pc>): World {
    World(map[], {}, {}, map[c := st], hs, {})
  }

  function LateRename(c: CampaignId): Pc { Writing(c, C.Draft) }

  lemma RenameLoads(c: CampaignId)
    ensures var s1, s2 := BlankWith(c, C.Draft, map[1 := Fetching(c, Change(None))]), BlankWith(c, C.Draft, map[1 := LateRename(c)]);
            && StepsTo(Blank(c), Submit(1, c, Change(None)), s1) && StepsTo(s1, Move(1, Ok, 0), s2)
            && StepsTo(s2, Request(2, c, Stop), BlankWith(c, C.Draft, map[1 := LateRename(c), 2 := Reading(c, Stop)]))
  {
  }

  lemma StopWithoutExecution(c: CampaignId)
    ensures var m, late := Move(2, Ok, 0), LateRename(c);
            var s4 := BlankWith(c, C.Draft, map[1 := late, 2 := Loading(c, Stop, None, None)]);
            var s5 := BlankWith(c, C.Draft, map[1 := late, 2 := Saving(c, Stop, None, None)]);
            && StepsTo(BlankWith(c, C.Draft, map[1 := late, 2 := Reading(c, Stop)]), m, s4)
            && StepsTo(s4, m, s5) && StepsTo(s5, m, BlankWith(c, C.Stopped, map[1 := late]))
  {
  }

  lemma RenameSaves(c: CampaignId)
    ensures var s6 := BlankWith(c, C.Stopped, map[1 := LateRename(c)]);
            StepsTo(s6, Move(1, Ok, 0), Blank(c)) && OverwriteIsDue(s6, c, 1)
  {
  }

  /** It saves the status that it loaded: the stopped campaign is a draft again. */
  lemma RenameReopensAStoppedCampaign(c: CampaignId)
    ensures CanRun(Blank(c), RenameAroundStop(c)) && Run(Blank(c), RenameAroundStop(c)) == Blank(c)
    ensures CanRun(Blank(c), RenameAroundStop(c)[..6])
    ensures var stopped := Run(Blank(c), RenameAroundStop(c)[..6]);
            stopped.status == map[c := C.Stopped] && OverwriteIsDue(stopped, c, 1)
  {
    var late := LateRename(c);
    RenameLoads(c);
    StopWithoutExecution(c);
    RenameSaves(c);
    var ss := [Blank(c),
               BlankWith(c, C.Draft, map[1 := Fetching(c, Change(None))]),
               BlankWith(c, C.Draft, map[1 := late]),
               BlankWith(c, C.Draft, map[1 := late, 2 := Reading(c, Stop)]),
               BlankWith(c, C.Draft, map[1 := late, 2 := Loading(c, Stop, None, None)]),
               BlankWith(c, C.Draft, map[1 := late, 2 := Saving(c, Stop, None, None)]),
               BlankWith(c, C.Stopped, map[1 := late])];
    RunOf(ss, RenameAroundStop(c)[..6]);
    RunOf(ss + [Blank(c)], RenameAroundStop(c));
  }

  /** The workers set the campaign to SENDING, and a pause gets as far as its save. */
  function PauseUpToSave(c: CampaignId): seq<Event> {
    [CampaignWritten(c, C.Sending), Request(1, c, Pause), Move(1, Ok, 0), Move(1, Ok, 0), Move(1, Ok, 0)]
  }

  lemma PauseReads(c: CampaignId)
    ensures var w := WorkflowId(c, 0);
            var s1, s2 := Executed(c, C.Sending, map[]), Executed(c, C.Sending, map[1 := Reading(c, Pause)]);
            && StepsTo(Executed(c, C.Draft, map[]), CampaignWritten(c, C.Sending), s1)
            && StepsTo(s1, Request(1, c, Pause), s2)
            && StepsTo(s2, Move(1, Ok, 0), Executed(c, C.Sending, map[1 := Signalling(c, Pause, Some(0), w)]))
  {
    var s2 := Executed(c, C.Sending, map[1 := Reading(c, Pause)]);
    assert IsActiveRow(s2, 0, c) && GetActive(s2, c) == Some(0);
  }

  lemma PauseSignalsAndLoads(c: CampaignId)
    ensures var w := WorkflowId(c, 0);
            var s4 := Solo(c, Running, true, C.Sending, map[1 := Loading(c, Pause, Some(0), Some(w))]);
            && StepsTo(Executed(c, C.Sending, map[1 := Signalling(c, Pause, Some(0), w)]), Move(1, Ok, 0), s4)
            && StepsTo(s4, Move(1, Ok, 0), Solo(c, Running, true, C.Sending, map[1 := HeldPause(c)]))
  {
  }

  lemma PauseUpToSaveRuns(c: CampaignId)
    ensures var s := Executed(c, C.Draft, map[]);
            && CanRun(s, PauseUpToSave(c))
            && Run(s, PauseUpToSave(c)) == Solo(c, Running, true, C.Sending, map[1 := HeldPause(c)])
  {
    var w := WorkflowId(c, 0);
    PauseReads(c);
    PauseSignalsAndLoads(c);
    RunOf([Executed(c, C.Draft, map[]),
           Executed(c, C.Sending, map[]),
           Executed(c, C.Sending, map[1 := Reading(c, Pause)]),
           Executed(c, C.Sending, map[1 := Signalling(c, Pause, Some(0), w)]),
           Solo(c, Running, true, C.Sending, map[1 := Loading(c, Pause, Some(0), Some(w))]),
           Solo(c, Running, true, C.Sending, map[1 := HeldPause(c)])], PauseUpToSave(c));
  }

  /** That state is one the system gets into: a run leads there from a draft campaign on which nothing
      has happened. */
  lemma HeldPauseIsReached(c: CampaignId)
    ensures Init(Blank(c))
    ensures CanRun(Blank(c), ExecuteOnce(c) + PauseUpToSave(c))
    ensures Run(Blank(c), ExecuteOnce(c) + PauseUpToSave(c)) == Solo(c, Running, true, C.Sending, map[1 := HeldPause(c)])
    ensures Inv(Solo(c, Running, true, C.Sending, map[1 := HeldPause(c)]))
  {
    ExecuteOnceRuns(c);
    PauseUpToSaveRuns(c);
    RunConcat(Blank(c), ExecuteOnce(c), PauseUpToSave(c));
    RunKeeps(Blank(c), ExecuteOnce(c) + PauseUpToSave(c));
  }

  /** STOPPED is not final when a pause and a stop overlap: from a state that a run reaches, a whole
      stop between the load and the save of a pause is overwritten. */
  lemma StopCanBeUndoneByAnOverlappingPause(c: CampaignId)
    ensures var s := Solo(c, Running, true, C.Sending, map[1 := HeldPause(c)]);
            && CanRun(s, Smooth(2, c, Stop))
            && Run(s, Smooth(2, c, Stop)) == Solo(c, Cancelled, false, C.Stopped, map[1 := HeldPause(c)])
            && CanRun(s, Smooth(2, c, Stop) + PauseThenExecute(c))
            && Run(s, Smooth(2, c, Stop) + PauseThenExecute(c)) == Solo(c, Paused, false, C.Paused, map[])
    ensures HasActive(Solo(c, Paused, false, C.Paused, map[]), c)
  {
    var s := Solo(c, Running, true, C.Sending, map[1 := HeldPause(c)]);
    StopInsidePause(c);
    PauseResumedAfterStop(c);
    RunConcat(s, Smooth(2, c, Stop), PauseThenExecute(c));
    SoloRow(c, Paused, false, C.Paused, map[]);
  }

  /** The whole story in one run from a draft campaign: it is stopped on the way and ends PAUSED, its
      cancelled row active again. */
  lemma AStoppedCampaignIsReopened(c: CampaignId)
    ensures var before := ExecuteOnce(c) + PauseUpToSave(c) + Smooth(2, c, Stop);
            && Init(Blank(c)) && CanRun(Blank(c), before) && CanRun(Blank(c), before + PauseThenExecute(c))
            && Run(Blank(c), before).status == map[c := C.Stopped] && OverwriteIsDue(Run(Blank(c), before), c, 1)
            && var end := Run(Blank(c), before + PauseThenExecute(c));
               end.status == map[c := C.Paused] && HasActive(end, c) && end.live == {}
  {
    HeldPauseIsReached(c);
    StopInsidePause(c);
    PauseResumedAfterStop(c);
    var start, stop := ExecuteOnce(c) + PauseUpToSave(c), Smooth(2, c, Stop);
    RunConcat(Blank(c), start, stop);
    RunConcat(Blank(c), start + stop, PauseThenExecute(c));
    var stopped := Solo(c, Cancelled, false, C.Stopped, map[1 := HeldPause(c)]);
    assert stopped.status[c] == C.Stopped && stopped.handlers[1] == HeldPause(c);
    assert IsActiveRow(Solo(c, Paused, false, C.Paused, map[]), 0, c);
  }

  lemma {:induction false} RunConcat(s: World, a: seq<Event>, b: seq<Event>)
    requires CanRun(s, a) && CanRun(Run(s, a), b)
    ensures CanRun(s, a + b) && Run(s, a + b) == Run(Run(s, a), b)
    decreases |a|
  {
    if a == [] {
      assert a + b == b;
    } else {
      assert (a + b)[1..] == a[1..] + b;
      RunConcat(Apply(s, a[0]), a[1..], b);
    }
  }
}
