/** The endpoint handlers as the sequential code they are, with their try/catch compensation.
    `outcomes[k]` is how the k-th awaited call of the handler ends. Each handler is proved to be
    exactly the run of the interleaved protocol in which no other handler takes a step. */
module CampaignsController {
  import opened Prelude
  import C = CampaignStatus
  import P = ExecutionProtocol

  datatype Response = Success | Rejected | Thrown

  /** The protocol, stepping the single handler 0 until it answers. */
  ghost function RunAlone(s: P.World, outcomes: seq<Outcome>, tick: nat): P.World
    decreases |outcomes|
  {
    if outcomes == [] || !P.Enabled(s, P.Move(0, outcomes[0], tick)) then s
    else RunAlone(P.Advance(s, 0, s.handlers[0], outcomes[0], tick), outcomes[1..], tick)
  }

  /** What the caller is told when a step of the handler at `pc` is its last. */
  ghost function LastWord(s: P.World, pc: P.Pc, o: Outcome): Response {
    match pc
    case Checking(c) => if o == Ok && c in s.status then Rejected else Thrown
    case Inserting(_, _) => Success
    case Reading(_, _) => if o == Ok then Rejected else Thrown
    case Loading(_, _, _, _) => if o == Ok then Rejected else Thrown
    case Saving(_, _, _, _) => if o == Ok then Success else Thrown
    case Fetching(_, _) => if o == Ok then Rejected else Thrown
    case Writing(_, _) => if o == Ok then Success else Thrown
    case Marking(_, a, r, _) => if o == Ok && !P.Collides(s, r, P.RowTarget(a)) then Success else Thrown
    case _ => Thrown
  }

  /** The answer of the handler that runs alone. */
  ghost function AnswerAlone(s: P.World, outcomes: seq<Outcome>, tick: nat): Response
    decreases |outcomes|
  {
    if outcomes == [] || !P.Enabled(s, P.Move(0, outcomes[0], tick)) then Thrown
    else
      var t := P.Advance(s, 0, s.handlers[0], outcomes[0], tick);
      if t.handlers == map[] then LastWord(s, s.handlers[0], outcomes[0]) else AnswerAlone(t, outcomes[1..], tick)
  }

  lemma OneStep(s: P.World, pc: P.Pc, t: P.World, outcomes: seq<Outcome>, tick: nat)
    requires outcomes != [] && s.handlers == map[0 := pc]
    requires pc.Inserting? ==> tick !in s.rows
    requires t == P.Advance(s, 0, pc, outcomes[0], tick)
    ensures RunAlone(s, outcomes, tick) == RunAlone(t, outcomes[1..], tick)
    ensures t.handlers == map[] ==> RunAlone(s, outcomes, tick) == t
    ensures AnswerAlone(s, outcomes, tick) ==
              if t.handlers == map[] then LastWord(s, pc, outcomes[0]) else AnswerAlone(t, outcomes[1..], tick)
  {
  }

  /** The step that saves the campaign, by outcome. */
  lemma SavingStep(s: P.World, c: CampaignId, a: P.Action, t: Option<P.RowId>, w: Option<P.WorkflowId>, outcomes: seq<Outcome>)
    returns (after: P.World)
    requires outcomes != [] && s.handlers == map[0 := P.Saving(c, a, t, w)]
    ensures RunAlone(s, outcomes, 0) == RunAlone(after, outcomes[1..], 0)
    ensures after.handlers == map[] ==> RunAlone(s, outcomes, 0) == after
    ensures AnswerAlone(s, outcomes, 0) ==
              if after.handlers != map[] then AnswerAlone(after, outcomes[1..], 0)
              else if outcomes[0] == Ok then Success else Thrown
    ensures after == s.(
      status := if outcomes[0].Failed? then s.status else s.status[c := C.Target(P.CampaignVerb(a))],
      handlers :=
        if outcomes[0] != Ok && !P.Kills(a) && w.Some? then map[0 := P.Undoing(a, w.value)]
        else if outcomes[0] == Ok && t.Some? && w.Some? then map[0 := P.Marking(c, a, t.value, w.value)]
        else map[])
  {
    var pc := P.Saving(c, a, t, w);
    after := P.Advance(s, 0, pc, outcomes[0], 0);
    SavingAdvances(s, c, a, t, w, outcomes[0]);
    OneStep(s, pc, after, outcomes, 0);
  }

  lemma SavingAdvances(s: P.World, c: CampaignId, a: P.Action, t: Option<P.RowId>, w: Option<P.WorkflowId>, o: Outcome)
    requires s.handlers == map[0 := P.Saving(c, a, t, w)]
    ensures P.Advance(s, 0, P.Saving(c, a, t, w), o, 0) == s.(
      status := if o.Failed? then s.status else s.status[c := C.Target(P.CampaignVerb(a))],
      handlers :=
        if o != Ok && !P.Kills(a) && w.Some? then map[0 := P.Undoing(a, w.value)]
        else if o == Ok && t.Some? && w.Some? then map[0 := P.Marking(c, a, t.value, w.value)]
        else map[])
  {
  }

  class CampaignsController {
    var rows: map<P.RowId, P.Execution>
    var live: set<P.WorkflowId>
    var held: set<P.WorkflowId>
    var status: map<CampaignId, C.Status>
    ghost var strays: set<P.WorkflowId>

    ghost function World(pc: P.Pc): P.World
      reads this
    {
      P.World(rows, live, held, status, map[0 := pc], strays)
    }

    ghost function Rest(): P.World
      reads this
    {
      P.World(rows, live, held, status, map[], strays)
    }

    ghost predicate Valid()
      reads this
    {
      P.OneActiveRow(Rest())
    }

    /** `getActiveExecution`. */
    method GetActiveExecution(c: CampaignId, ghost pc: P.Pc) returns (found: Option<P.RowId>)
      requires Valid()
      ensures found == P.GetActive(World(pc), c)
    {
      ghost var s := World(pc);
      if r :| r in rows && rows[r].campaign == c && P.IsActive(rows[r].status) {
        assert P.IsActiveRow(s, r, c);
        ghost var q := P.GetActive(s, c);
        assert P.IsActiveRow(Rest(), r, c) && P.IsActiveRow(Rest(), q.value, c);
        found := Some(r);
      } else {
        found := None;
      }
    }

    /** `signal` and `cancel` on a workflow handle; false when the caller sees an exception. */
    method Signal(a: P.Action, w: P.WorkflowId, o: Outcome) returns (ok: bool)
      modifies this
      ensures ok == (o == Ok)
      ensures rows == old(rows) && status == old(status)
      ensures forall pc :: World(pc) == if o.Failed? then old(World(pc)) else P.Signalled(old(World(pc)), a, w)
    {
      if o != Failed {
        match a
        case Pause => held := held + {w};
        case Resume => held := held - {w};
        case Stop => live, strays := live - {w}, strays - {w};
        case Cancel(_) => live, strays := live - {w}, strays - {w};
      }
      ok := o == Ok;
    }

    /** `campaignsRepository.save` with the new status. */
    method SaveStatus(c: CampaignId, v: C.Verb, o: Outcome) returns (ok: bool)
      modifies this
      ensures ok == (o == Ok)
      ensures rows == old(rows) && live == old(live) && held == old(held) && strays == old(strays)
      ensures status == if o.Failed? then old(status) else old(status)[c := C.Target(v)]
    {
      if o != Failed { status := status[c := C.Target(v)]; }
      ok := o == Ok;
    }

    /** `CampaignExecutionsService.updateStatus` under the partial unique index. */
    method UpdateStatus(a: P.Action, r: P.RowId, w: P.WorkflowId, o: Outcome) returns (ok: bool)
      modifies this
      ensures live == old(live) && held == old(held) && status == old(status)
      ensures ok == (o == Ok && !P.Collides(old(Rest()), r, P.RowTarget(a)))
      ensures Rest() == if o.Failed? || P.Collides(old(Rest()), r, P.RowTarget(a)) then old(Rest())
                        else P.Marked(old(Rest()), a, r, w)
    {
      ghost var s := Rest();
      if o == Failed { return false; }
      if r in rows {
        var c := rows[r].campaign;
        if P.IsActive(P.RowTarget(a)) {
          if q :| q in rows && q != r && rows[q].campaign == c && P.IsActive(rows[q].status) {
            assert P.IsActiveRow(s, q, c) && P.Collides(s, r, P.RowTarget(a));
            return false;
          }
        }
        assert !P.Collides(s, r, P.RowTarget(a));
        if P.Kills(a) && w != rows[r].workflow { strays := strays + ({rows[r].workflow} * live); }
        rows := rows[r := rows[r].(status := P.RowTarget(a))];
      }
      ok := o == Ok;
    }

    /** POST :id/pause and POST :id/resume. */
    method PauseOrResume(c: CampaignId, a: P.Action, outcomes: seq<Outcome>) returns (response: Response)
      requires Valid() && !P.Kills(a) && |outcomes| == 6
      modifies this
      ensures Rest() == RunAlone(old(World(P.Reading(c, a))), outcomes, 0)
      ensures response == AnswerAlone(old(World(P.Reading(c, a))), outcomes, 0)
    {
      ghost var s := World(P.Reading(c, a));
      var found := GetActiveExecution(c, P.Reading(c, a));
      ghost var t := P.Advance(s, 0, P.Reading(c, a), outcomes[0], 0);
      OneStep(s, P.Reading(c, a), t, outcomes, 0);
      if outcomes[0] != Ok {
        assert t == Rest();
        return Thrown;
      }
      if found.None? {
        assert t == Rest();
        return Rejected;
      }
      var w := rows[found.value].workflow;
      assert t == World(P.Signalling(c, a, found, w));
      response := SignalAndTry(c, a, found.value, w, outcomes[1..]);
    }

    method SignalAndTry(c: CampaignId, a: P.Action, r: P.RowId, w: P.WorkflowId, outcomes: seq<Outcome>)
      returns (response: Response)
      requires !P.Kills(a) && |outcomes| == 5 && r in rows
      modifies this
      ensures Rest() == RunAlone(old(World(P.Signalling(c, a, Some(r), w))), outcomes, 0)
      ensures response == AnswerAlone(old(World(P.Signalling(c, a, Some(r), w))), outcomes, 0)
    {
      ghost var pc := P.Signalling(c, a, Some(r), w);
      ghost var s := World(pc);
      ghost var t := P.Advance(s, 0, pc, outcomes[0], 0);
      OneStep(s, pc, t, outcomes, 0);
      var sent := Signal(a, w, outcomes[0]);
      if !sent {
        assert t == Rest();
        return Thrown;
      }
      assert t == World(P.Loading(c, a, Some(r), Some(w)));
      response := TryBlock(c, a, r, w, outcomes[1..]);
    }

    /** `campaignsService.pause` or `.resume` inside the try, then the row update. */
    method TryBlock(c: CampaignId, a: P.Action, r: P.RowId, w: P.WorkflowId, outcomes: seq<Outcome>)
      returns (response: Response)
      requires !P.Kills(a) && |outcomes| == 4
      modifies this
      ensures Rest() == RunAlone(old(World(P.Loading(c, a, Some(r), Some(w)))), outcomes, 0)
      ensures response == AnswerAlone(old(World(P.Loading(c, a, Some(r), Some(w)))), outcomes, 0)
    {
      ghost var pc := P.Loading(c, a, Some(r), Some(w));
      ghost var s := World(pc);
      ghost var t := P.Advance(s, 0, pc, outcomes[0], 0);
      OneStep(s, pc, t, outcomes, 0);
      var verb := P.CampaignVerb(a);
      if outcomes[0] != Ok || c !in status || !C.Allowed(verb, status[c]) {
        assert t == World(P.Undoing(a, w));
        response := Compensate(a, w, outcomes[1..]);
        return;
      }
      assert t == World(P.Saving(c, a, Some(r), Some(w)));
      response := SaveAndMark(c, a, r, w, outcomes[1..]);
    }

    method SaveAndMark(c: CampaignId, a: P.Action, r: P.RowId, w: P.WorkflowId, outcomes: seq<Outcome>)
      returns (response: Response)
      requires !P.Kills(a) && |outcomes| == 3
      modifies this
      ensures Rest() == RunAlone(old(World(P.Saving(c, a, Some(r), Some(w)))), outcomes, 0)
      ensures response == AnswerAlone(old(World(P.Saving(c, a, Some(r), Some(w)))), outcomes, 0)
    {
      ghost var t := SavingStep(World(P.Saving(c, a, Some(r), Some(w))), c, a, Some(r), Some(w), outcomes);
      var saved := SaveStatus(c, P.CampaignVerb(a), outcomes[0]);
      if !saved {
        assert t == World(P.Undoing(a, w));
        response := Compensate(a, w, outcomes[1..]);
        return;
      }
      assert t == World(P.Marking(c, a, r, w));
      response := MarkRow(c, a, r, w, outcomes[1..]);
    }

    method MarkRow(c: CampaignId, a: P.Action, r: P.RowId, w: P.WorkflowId, outcomes: seq<Outcome>)
      returns (response: Response)
      requires !P.Kills(a) && |outcomes| == 2
      modifies this
      ensures Rest() == RunAlone(old(World(P.Marking(c, a, r, w))), outcomes, 0)
      ensures response == AnswerAlone(old(World(P.Marking(c, a, r, w))), outcomes, 0)
    {
      ghost var pc := P.Marking(c, a, r, w);
      ghost var s := World(pc);
      ghost var t := P.Advance(s, 0, pc, outcomes[0], 0);
      OneStep(s, pc, t, outcomes, 0);
      SameCollisions(s, Rest(), r, P.RowTarget(a));
      var marked := UpdateStatus(a, r, w, outcomes[0]);
      if !marked {
        assert t == World(P.Undoing(a, w));
        response := Compensate(a, w, outcomes[1..]);
        return;
      }
      assert t == Rest();
      response := Success;
    }

    /** The catch block: send the opposite signal, ignore its failure, rethrow. */
    method Compensate(a: P.Action, w: P.WorkflowId, outcomes: seq<Outcome>) returns (response: Response)
      requires !P.Kills(a) && outcomes != []
      modifies this
      ensures response == Thrown
      ensures Rest() == RunAlone(old(World(P.Undoing(a, w))), outcomes, 0)
      ensures response == AnswerAlone(old(World(P.Undoing(a, w))), outcomes, 0)
    {
      ghost var s := World(P.Undoing(a, w));
      ghost var t := P.Advance(s, 0, P.Undoing(a, w), outcomes[0], 0);
      OneStep(s, P.Undoing(a, w), t, outcomes, 0);
      var opposite := if a.Pause? then P.Resume else P.Pause;
      var _ := Signal(opposite, w, outcomes[0]);
      assert t == Rest();
      response := Thrown;
    }

    /** POST :id/stop and POST :id/execution/cancel. */
    method StopOrCancel(c: CampaignId, a: P.Action, outcomes: seq<Outcome>) returns (response: Response)
      requires Valid() && P.Kills(a) && |outcomes| == 5
      modifies this
      ensures Rest() == RunAlone(old(World(P.Reading(c, a))), outcomes, 0)
      ensures response == AnswerAlone(old(World(P.Reading(c, a))), outcomes, 0)
    {
      ghost var s := World(P.Reading(c, a));
      var found := GetActiveExecution(c, P.Reading(c, a));
      ghost var t := P.Advance(s, 0, P.Reading(c, a), outcomes[0], 0);
      OneStep(s, P.Reading(c, a), t, outcomes, 0);
      if outcomes[0] != Ok {
        assert t == Rest();
        return Thrown;
      }
      var named := if a.Cancel? && a.body.Some? then a.body
                   else if found.Some? then Some(rows[found.value].workflow) else None;
      if named.Some? {
        assert t == World(P.Signalling(c, a, found, named.value));
        response := CancelWorkflow(c, a, found, named.value, outcomes[1..]);
      } else if a.Stop? {
        assert t == World(P.Loading(c, a, None, None));
        response := StopCampaign(c, a, None, None, outcomes[1..]);
      } else {
        assert t == Rest();
        response := Rejected;
      }
    }

    method CancelWorkflow(c: CampaignId, a: P.Action, t: Option<P.RowId>, w: P.WorkflowId, outcomes: seq<Outcome>)
      returns (response: Response)
      requires P.Kills(a) && |outcomes| == 4
      modifies this
      ensures Rest() == RunAlone(old(World(P.Signalling(c, a, t, w))), outcomes, 0)
      ensures response == AnswerAlone(old(World(P.Signalling(c, a, t, w))), outcomes, 0)
    {
      ghost var pc := P.Signalling(c, a, t, w);
      ghost var s := World(pc);
      ghost var s' := P.Advance(s, 0, pc, outcomes[0], 0);
      OneStep(s, pc, s', outcomes, 0);
      var sent := Signal(a, w, outcomes[0]);
      if !sent {
        assert s' == Rest();
        return Thrown;
      }
      assert s' == World(P.Loading(c, a, t, Some(w)));
      response := StopCampaign(c, a, t, Some(w), outcomes[1..]);
    }

    /** `campaignsService.stop`, then the row update when a row was found. */
    method StopCampaign(c: CampaignId, a: P.Action, t: Option<P.RowId>, w: Option<P.WorkflowId>, outcomes: seq<Outcome>)
      returns (response: Response)
      requires P.Kills(a) && |outcomes| >= 3
      modifies this
      ensures Rest() == RunAlone(old(World(P.Loading(c, a, t, w))), outcomes, 0)
      ensures response == AnswerAlone(old(World(P.Loading(c, a, t, w))), outcomes, 0)
    {
      ghost var pc := P.Loading(c, a, t, w);
      ghost var s := World(pc);
      ghost var s' := P.Advance(s, 0, pc, outcomes[0], 0);
      OneStep(s, pc, s', outcomes, 0);
      if outcomes[0] != Ok || c !in status || !C.Allowed(C.Stop, status[c]) {
        assert s' == Rest();
        return if outcomes[0] == Ok then Rejected else Thrown;
      }
      assert s' == World(P.Saving(c, a, t, w));
      response := SaveStopped(c, a, t, w, outcomes[1..]);
    }

    method SaveStopped(c: CampaignId, a: P.Action, t: Option<P.RowId>, w: Option<P.WorkflowId>, outcomes: seq<Outcome>)
      returns (response: Response)
      requires P.Kills(a) && |outcomes| >= 2
      modifies this
      ensures Rest() == RunAlone(old(World(P.Saving(c, a, t, w))), outcomes, 0)
      ensures response == AnswerAlone(old(World(P.Saving(c, a, t, w))), outcomes, 0)
    {
      ghost var s' := SavingStep(World(P.Saving(c, a, t, w)), c, a, t, w, outcomes);
      var saved := SaveStatus(c, C.Stop, outcomes[0]);
      if !saved {
        assert s' == Rest();
        return Thrown;
      }
      if t.None? || w.None? {
        assert s' == Rest();
        return Success;
      }
      assert s' == World(P.Marking(c, a, t.value, w.value));
      response := MarkStopped(c, a, t.value, w.value, outcomes[1..]);
    }

    method MarkStopped(c: CampaignId, a: P.Action, r: P.RowId, w: P.WorkflowId, outcomes: seq<Outcome>)
      returns (response: Response)
      requires P.Kills(a) && outcomes != []
      modifies this
      ensures Rest() == RunAlone(old(World(P.Marking(c, a, r, w))), outcomes, 0)
      ensures response == AnswerAlone(old(World(P.Marking(c, a, r, w))), outcomes, 0)
    {
      ghost var pc := P.Marking(c, a, r, w);
      ghost var s := World(pc);
      ghost var t := P.Advance(s, 0, pc, outcomes[0], 0);
      OneStep(s, pc, t, outcomes, 0);
      SameCollisions(s, Rest(), r, P.RowTarget(a));
      var marked := UpdateStatus(a, r, w, outcomes[0]);
      assert t == Rest();
      response := if marked then Success else Thrown;
    }

    /** POST :id/execute. `tick` is the clock reading that names the workflow and the id the
        database gives the new row. */
    method ExecuteCampaign(c: CampaignId, outcomes: seq<Outcome>, tick: nat) returns (response: Response)
      requires Valid() && |outcomes| == 4 && tick !in rows
      modifies this
      ensures Rest() == RunAlone(old(World(P.Checking(c))), outcomes, tick)
      ensures response == AnswerAlone(old(World(P.Checking(c))), outcomes, tick)
    {
      ghost var pc := P.Checking(c);
      ghost var s := World(pc);
      ghost var t := P.Advance(s, 0, pc, outcomes[0], tick);
      OneStep(s, pc, t, outcomes, tick);
      if outcomes[0] != Ok || c !in status {
        assert t == Rest();
        return Thrown;
      }
      var active := GetActiveExecution(c, pc);
      if active.Some? {
        assert t == Rest();
        return Rejected;
      }
      assert t == World(P.Starting(c));
      response := StartAndPersist(c, outcomes[1..], tick);
    }

    /** `scheduleCampaignExecution` with a zero delay, then the execution row. */
    method StartAndPersist(c: CampaignId, outcomes: seq<Outcome>, tick: nat) returns (response: Response)
      requires Valid() && |outcomes| == 3 && tick !in rows
      modifies this
      ensures Rest() == RunAlone(old(World(P.Starting(c))), outcomes, tick)
      ensures response == AnswerAlone(old(World(P.Starting(c))), outcomes, tick)
    {
      ghost var s := World(P.Starting(c));
      var w := P.WorkflowId(c, tick);
      ghost var t := P.Advance(s, 0, P.Starting(c), outcomes[0], tick);
      OneStep(s, P.Starting(c), t, outcomes, tick);
      if outcomes[0] == Failed || w in live {
        assert t == Rest();
        return Thrown;
      }
      live := live + {w};
      if outcomes[0] == AckLost {
        strays := strays + {w};
        assert t == Rest();
        return Thrown;
      }
      assert t == World(P.Inserting(c, w));
      assert forall r, d :: P.IsActiveRow(Rest(), r, d) == P.IsActiveRow(old(Rest()), r, d);
      response := PersistOrRevert(c, w, outcomes[1..], tick);
    }

    /** `createExecution` under the partial unique index, with the compensating cancel. */
    method PersistOrRevert(c: CampaignId, w: P.WorkflowId, outcomes: seq<Outcome>, tick: nat)
      returns (response: Response)
      requires Valid() && |outcomes| == 2 && tick !in rows
      modifies this
      ensures Rest() == RunAlone(old(World(P.Inserting(c, w))), outcomes, tick)
      ensures response == AnswerAlone(old(World(P.Inserting(c, w))), outcomes, tick)
    {
      ghost var pc := P.Inserting(c, w);
      ghost var s := World(pc);
      ghost var t := P.Advance(s, 0, pc, outcomes[0], tick);
      OneStep(s, pc, t, outcomes, tick);
      var active := GetActiveExecution(c, pc);
      var stored := outcomes[0] != Failed && active.None?;
      if stored { rows := rows[tick := P.Execution(c, w, P.Running)]; }
      if stored && outcomes[0] == Ok {
        assert t == Rest();
        return Success;
      }
      assert t == World(P.Reverting(w));
      response := Revert(w, outcomes[1..], tick);
    }

    /** The compensating cancel, whose failure is ignored. */
    method Revert(w: P.WorkflowId, outcomes: seq<Outcome>, ghost tick: nat) returns (response: Response)
      requires outcomes != []
      modifies this
      ensures Rest() == RunAlone(old(World(P.Reverting(w))), outcomes, tick)
      ensures response == AnswerAlone(old(World(P.Reverting(w))), outcomes, tick)
    {
      ghost var s := World(P.Reverting(w));
      ghost var t := P.Advance(s, 0, P.Reverting(w), outcomes[0], tick);
      OneStep(s, P.Reverting(w), t, outcomes, tick);
      if outcomes[0] == Failed {
        strays := strays + ({w} * live);
      } else {
        live, strays := live - {w}, strays - {w};
      }
      assert t == Rest();
      response := Thrown;
    }
  }

  lemma SameCollisions(s: P.World, t: P.World, r: P.RowId, st: P.ExecutionStatus)
    requires s.rows == t.rows
    ensures P.Collides(s, r, st) == P.Collides(t, r, st)
  {
    if r in s.rows {
      forall q ensures P.IsActiveRow(s, q, s.rows[r].campaign) == P.IsActiveRow(t, q, s.rows[r].campaign) {}
    }
  }

  // ---------------------------------------------------------------- do the last signal and the campaign agree?

  ghost predicate Paused(s: P.World, c: CampaignId) { c in s.status && s.status[c] == C.Paused }

  /** The campaign's own guard lets the action through. */
  ghost predicate Accepts(s: P.World, c: CampaignId, a: P.Action) {
    c in s.status &&
    if a.Pause? then s.status[c] == C.Sending
    else if a.Resume? then s.status[c] == C.Paused
    else s.status[c] in {C.Draft, C.Scheduled, C.Sending, C.Paused}
  }

  /** A pause or a resume, with no other handler about, of a campaign whose active execution `r` drives
      a live workflow. Campaign and workflow may be in any state, paused or not. */
  ghost predicate AboutTo(s: P.World, c: CampaignId, a: P.Action, r: P.RowId) {
    && s.handlers == map[0 := P.Reading(c, a)] && !P.Kills(a)
    && P.OneActiveRow(s) && P.IsActiveRow(s, r, c) && s.rows[r].workflow in s.live
  }

  /** The first signal arrives, and so does the compensating one. */
  predicate Sent(o: seq<Outcome>)
    requires |o| == 6
  {
    o[0] == Ok && o[1] != Failed
  }

  predicate Undone(accepted: bool, o: seq<Outcome>)
    requires |o| == 6
  {
    o[0] == Ok && o[1] == Ok &&
    if o[2] != Ok || !accepted then o[3] != Failed
    else if o[3] != Ok then o[4] != Failed
    else o[4] != Ok && o[5] != Failed
  }

  /** The campaign's new status is stored. */
  predicate Stored(accepted: bool, o: seq<Outcome>)
    requires |o| == 6
  {
    accepted && o[0] == Ok && o[1] == Ok && o[2] == Ok && o[3] != Failed
  }

  /** The campaigns once a pause or a resume has stored its status. */
  ghost function StatusAfter(s: P.World, c: CampaignId, a: P.Action, stored: bool): map<CampaignId, C.Status> {
    if stored then s.status[c := if a.Pause? then C.Paused else C.Sending] else s.status
  }

  /** The execution row once it has been marked: it says what the action is called after. */
  ghost function RowsAfter(s: P.World, a: P.Action, r: P.RowId, marked: bool): map<P.RowId, P.Execution>
    requires r in s.rows
  {
    if marked then s.rows[r := s.rows[r].(status := if a.Pause? then P.Paused else P.Running)] else s.rows
  }

  lemma UndoAlone(s: P.World, a: P.Action, w: P.WorkflowId, o: seq<Outcome>)
    requires o != [] && !P.Kills(a) && s.handlers == map[0 := P.Undoing(a, w)] && w in s.live
    ensures var end := RunAlone(s, o, 0);
            && end.status == s.status && end.rows == s.rows && end.live == s.live
            && (w in end.held <==> if o[0] == Failed then w in s.held else a.Resume?)
    ensures AnswerAlone(s, o, 0) == Thrown
  {
    var pc := P.Undoing(a, w);
    OneStep(s, pc, P.Advance(s, 0, pc, o[0], 0), o, 0);
  }

  lemma MarkAlone(s: P.World, c: CampaignId, a: P.Action, r: P.RowId, w: P.WorkflowId, o: seq<Outcome>)
    requires |o| == 2 && !P.Kills(a) && s.handlers == map[0 := P.Marking(c, a, r, w)] && w in s.live
    requires !P.Collides(s, r, P.RowTarget(a)) && (w in s.held <==> a.Pause?)
    requires r in s.rows
    ensures var end := RunAlone(s, o, 0);
            && end.status == s.status && end.live == s.live && end.rows == RowsAfter(s, a, r, o[0] != Failed)
            && (w in end.held <==> if o[0] != Ok && o[1] != Failed then a.Resume? else a.Pause?)
    ensures AnswerAlone(s, o, 0) == if o[0] == Ok then Success else Thrown
  {
    var pc := P.Marking(c, a, r, w);
    var t := P.Advance(s, 0, pc, o[0], 0);
    OneStep(s, pc, t, o, 0);
    if o[0] != Ok {
      assert t.handlers == map[0 := P.Undoing(a, w)];
      UndoAlone(t, a, w, o[1..]);
    }
  }

  lemma SaveAlone(s: P.World, c: CampaignId, a: P.Action, r: P.RowId, w: P.WorkflowId, o: seq<Outcome>)
    requires |o| == 3 && !P.Kills(a) && s.handlers == map[0 := P.Saving(c, a, Some(r), Some(w))] && w in s.live
    requires r in s.rows && !P.Collides(s, r, P.RowTarget(a)) && (w in s.held <==> a.Pause?)
    ensures var end := RunAlone(s, o, 0);
            && end.status == StatusAfter(s, c, a, o[0] != Failed) && end.live == s.live
            && end.rows == RowsAfter(s, a, r, o[0] == Ok && o[1] != Failed)
            && (w in end.held <==>
                  if (if o[0] != Ok then o[1] != Failed else o[1] != Ok && o[2] != Failed) then a.Resume? else a.Pause?)
    ensures AnswerAlone(s, o, 0) == if o[0] == Ok && o[1] == Ok then Success else Thrown
  {
    var t := SavingStep(s, c, a, Some(r), Some(w), o);
    if o[0] != Ok {
      UndoAlone(t, a, w, o[1..]);
    } else {
      SameCollisions(s, t, r, P.RowTarget(a));
      MarkAlone(t, c, a, r, w, o[1..]);
    }
  }

  /** The last four of the six calls, once the signal was sent and acknowledged. */
  lemma LoadAlone(s: P.World, c: CampaignId, a: P.Action, r: P.RowId, w: P.WorkflowId, o: seq<Outcome>)
    requires |o| == 6 && o[0] == Ok && o[1] == Ok
    requires !P.Kills(a) && s.handlers == map[0 := P.Loading(c, a, Some(r), Some(w))] && w in s.live
    requires r in s.rows && !P.Collides(s, r, P.RowTarget(a)) && (w in s.held <==> a.Pause?)
    ensures EndsAs(s, c, a, r, w, o, RunAlone(s, o[2..], 0), AnswerAlone(s, o[2..], 0))
  {
    var pc := P.Loading(c, a, Some(r), Some(w));
    var t := P.Advance(s, 0, pc, o[2], 0);
    OneStep(s, pc, t, o[2..], 0);
    assert o[2..][1..] == o[3..];
    if o[2] != Ok || !Accepts(s, c, a) {
      assert t.handlers == map[0 := P.Undoing(a, w)];
      UndoAlone(t, a, w, o[3..]);
    } else {
      assert t.handlers == map[0 := P.Saving(c, a, Some(r), Some(w))];
      SameCollisions(s, t, r, P.RowTarget(a));
      SaveAlone(t, c, a, r, w, o[3..]);
    }
  }

  /** The signal, by outcome. */
  lemma SignallingStep(s: P.World, c: CampaignId, a: P.Action, r: P.RowId, w: P.WorkflowId, outcomes: seq<Outcome>)
    returns (after: P.World)
    requires outcomes != [] && !P.Kills(a) && s.handlers == map[0 := P.Signalling(c, a, Some(r), w)] && w in s.live
    ensures if outcomes[0] == Ok
            then RunAlone(s, outcomes, 0) == RunAlone(after, outcomes[1..], 0)
                 && AnswerAlone(s, outcomes, 0) == AnswerAlone(after, outcomes[1..], 0)
            else RunAlone(s, outcomes, 0) == after && AnswerAlone(s, outcomes, 0) == Thrown
    ensures after == s.(
      held := if outcomes[0].Failed? then s.held else if a.Pause? then s.held + {w} else s.held - {w},
      handlers := if outcomes[0] == Ok then map[0 := P.Loading(c, a, Some(r), Some(w))] else map[])
  {
    var pc := P.Signalling(c, a, Some(r), w);
    after := P.Advance(s, 0, pc, outcomes[0], 0);
    OneStep(s, pc, after, outcomes, 0);
  }

  lemma SignalAlone(s: P.World, c: CampaignId, a: P.Action, r: P.RowId, w: P.WorkflowId, o: seq<Outcome>)
    requires |o| == 6 && o[0] == Ok
    requires !P.Kills(a) && s.handlers == map[0 := P.Signalling(c, a, Some(r), w)] && w in s.live
    requires r in s.rows && !P.Collides(s, r, P.RowTarget(a))
    ensures EndsAs(s, c, a, r, w, o, RunAlone(s, o[1..], 0), AnswerAlone(s, o[1..], 0))
  {
    var t := SignallingStep(s, c, a, r, w, o[1..]);
    if o[1] == Ok {
      assert o[1..][1..] == o[2..];
      SameCollisions(s, t, r, P.RowTarget(a));
      LoadAlone(t, c, a, r, w, o);
    }
  }

  /** The row update arrives. */
  predicate RowMarked(accepted: bool, o: seq<Outcome>)
    requires |o| == 6
  {
    accepted && o[0] == Ok && o[1] == Ok && o[2] == Ok && o[3] == Ok && o[4] != Failed
  }

  /** Where the handler ends: what is stored of campaign and execution, what the workflow has last been
      told, and the answer. */
  ghost predicate EndsAs(s: P.World, c: CampaignId, a: P.Action, r: P.RowId, w: P.WorkflowId, o: seq<Outcome>,
                         end: P.World, answer: Response)
    requires |o| == 6 && r in s.rows
  {
    var accepted := Accepts(s, c, a);
    && end.status == StatusAfter(s, c, a, Stored(accepted, o))
    && end.rows == RowsAfter(s, a, r, RowMarked(accepted, o)) && end.live == s.live
    && (w in end.held <==> if !Sent(o) then w in s.held else if Undone(accepted, o) then a.Resume? else a.Pause?)
    && (answer == Success <==> accepted && o[0] == Ok && o[1] == Ok && o[2] == Ok && o[3] == Ok && o[4] == Ok)
  }

  /** A pause or a resume, whatever state it finds and whichever of its six calls fail. */
  lemma PauseOrResumeEnds(s: P.World, c: CampaignId, a: P.Action, r: P.RowId, o: seq<Outcome>)
    requires AboutTo(s, c, a, r) && |o| == 6
    ensures EndsAs(s, c, a, r, s.rows[r].workflow, o, RunAlone(s, o, 0), AnswerAlone(s, o, 0))
  {
    var w := s.rows[r].workflow;
    var read := P.Reading(c, a);
    var t := P.Advance(s, 0, read, o[0], 0);
    OneStep(s, read, t, o, 0);
    if o[0] == Ok {
      assert P.HasActive(s, c) && P.IsActiveRow(s, P.GetActive(s, c).value, c);
      assert t.handlers == map[0 := P.Signalling(c, a, Some(r), w)];
      assert !P.Collides(s, r, P.RowTarget(a));
      SameCollisions(s, t, r, P.RowTarget(a));
      SignalAlone(t, c, a, r, w, o);
    }
  }

  ghost predicate Agrees(s: P.World, c: CampaignId, w: P.WorkflowId) { w in s.held <==> Paused(s, c) }

  /** Exactly when the workflow's last signal and the campaign agree after a pause or a resume: if no
      signal arrived, when they agreed before; if the signal was compensated, when nothing was stored
      and the campaign is as the compensation has it; and otherwise when the status was stored or was
      right already. */
  lemma AgreesIff(s: P.World, c: CampaignId, a: P.Action, r: P.RowId, o: seq<Outcome>)
    requires AboutTo(s, c, a, r) && |o| == 6
    ensures var accepted := Accepts(s, c, a);
            Agrees(RunAlone(s, o, 0), c, s.rows[r].workflow) <==>
              if !Sent(o) then Agrees(s, c, s.rows[r].workflow)
              else if Undone(accepted, o) then !Stored(accepted, o) && (a.Resume? <==> Paused(s, c))
              else Stored(accepted, o) || (a.Pause? <==> Paused(s, c))
  {
    PauseOrResumeEnds(s, c, a, r, o);
  }

  /** The caller is told of a success exactly when the campaign accepts the action and the first five
      calls succeed, and then the last signal and the campaign agree. */
  lemma SuccessMeansAgreement(s: P.World, c: CampaignId, a: P.Action, r: P.RowId, o: seq<Outcome>)
    requires AboutTo(s, c, a, r) && |o| == 6
    ensures AnswerAlone(s, o, 0) == Success <==>
              Accepts(s, c, a) && o[0] == Ok && o[1] == Ok && o[2] == Ok && o[3] == Ok && o[4] == Ok
    ensures var end := RunAlone(s, o, 0);
            AnswerAlone(s, o, 0) == Success ==>
              Agrees(end, c, s.rows[r].workflow) && (Paused(end, c) <==> a.Pause?)
  {
    PauseOrResumeEnds(s, c, a, r, o);
  }

  const NO_FAULT := [Ok, Ok, Ok, Ok, Ok, Ok]

  /** With no fault at all and agreement before, there is agreement after exactly if the campaign
      accepts the action, or it is a pause of a campaign that is not paused. The others are refused
      after the signal was sent, and the compensation overshoots. */
  lemma FaultFreeAgreesIff(s: P.World, c: CampaignId, a: P.Action, r: P.RowId)
    requires AboutTo(s, c, a, r) && Agrees(s, c, s.rows[r].workflow)
    ensures Agrees(RunAlone(s, NO_FAULT, 0), c, s.rows[r].workflow) <==>
              Accepts(s, c, a) || (a.Pause? && !Paused(s, c))
  {
    AgreesIff(s, c, a, r, NO_FAULT);
  }

  /** Pausing a paused campaign a second time is refused, and the last signal that its workflow gets is
      a resume. */
  lemma SecondPauseSignalsResume(s: P.World, c: CampaignId, r: P.RowId)
    requires AboutTo(s, c, P.Pause, r) && Paused(s, c) && s.rows[r].workflow in s.held
    ensures var end := RunAlone(s, NO_FAULT, 0);
            && s.rows[r].workflow in end.live && s.rows[r].workflow !in end.held
            && end.status == s.status && end.rows == s.rows && AnswerAlone(s, NO_FAULT, 0) != Success
  {
    PauseOrResumeEnds(s, c, P.Pause, r, NO_FAULT);
  }

  /** Resuming a campaign that is sending is refused, and the last signal that its workflow gets is a
      pause. */
  lemma ResumeWhileSendingSignalsPause(s: P.World, c: CampaignId, r: P.RowId)
    requires AboutTo(s, c, P.Resume, r) && c in s.status && s.status[c] == C.Sending && s.rows[r].workflow !in s.held
    ensures var end := RunAlone(s, NO_FAULT, 0);
            && s.rows[r].workflow in end.live && s.rows[r].workflow in end.held
            && end.status == s.status && end.rows == s.rows && AnswerAlone(s, NO_FAULT, 0) != Success
  {
    PauseOrResumeEnds(s, c, P.Resume, r, NO_FAULT);
  }
}
