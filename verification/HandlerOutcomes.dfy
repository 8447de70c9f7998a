/** Where each campaign endpoint ends when no other handler is about: what is stored, which workflows
    live and what the caller is told, for every state it may find and every way its calls may end. The
    statuses and the rows are written out here; `CampaignsController` shows that the handlers are runs
    of the protocol, and these lemmas say what such a run amounts to. */
module HandlerOutcomes {
  import opened Prelude
  import C = CampaignStatus
  import P = ExecutionProtocol
  import opened CampaignsController

  // ---------------------------------------------------------------- execute

  /** The compensating cancel. */
  lemma RevertEnds(s: P.World, w: P.WorkflowId, o: seq<Outcome>, tick: nat)
    requires o != [] && s.handlers == map[0 := P.Reverting(w)] && w in s.live
    ensures var end := RunAlone(s, o, tick);
            && end.rows == s.rows && end.status == s.status && end.held == s.held
            && end.live == if o[0] == Failed then s.live else s.live - {w}
    ensures AnswerAlone(s, o, tick) == Thrown
  {
    OneStep(s, P.Reverting(w), P.Advance(s, 0, P.Reverting(w), o[0], tick), o, tick);
  }

  /** The insert, and the cancel that follows unless it is acknowledged. */
  lemma InsertEnds(s: P.World, c: CampaignId, w: P.WorkflowId, o: seq<Outcome>, tick: nat)
    requires |o| == 2 && s.handlers == map[0 := P.Inserting(c, w)] && w in s.live
    requires tick !in s.rows && !P.HasActive(s, c)
    ensures var end := RunAlone(s, o, tick);
            && end.rows == (if o[0] != Failed then s.rows[tick := P.Execution(c, w, P.Running)] else s.rows)
            && end.live == (if o[0] == Ok || o[1] == Failed then s.live else s.live - {w})
            && end.status == s.status && end.held == s.held
    ensures AnswerAlone(s, o, tick) == if o[0] == Ok then Success else Thrown
  {
    var pc := P.Inserting(c, w);
    var t := P.Advance(s, 0, pc, o[0], tick);
    OneStep(s, pc, t, o, tick);
    if o[0] != Ok { RevertEnds(t, w, o[1..], tick); }
  }

  /** The start and what follows. */
  lemma StartEnds(s: P.World, c: CampaignId, o: seq<Outcome>, tick: nat)
    requires |o| == 3 && s.handlers == map[0 := P.Starting(c)] && tick !in s.rows && !P.HasActive(s, c)
    ensures var w, end := P.WorkflowId(c, tick), RunAlone(s, o, tick);
            var starts := o[0] != Failed && w !in s.live;
            && end.rows == (if starts && o[0] == Ok && o[1] != Failed then s.rows[tick := P.Execution(c, w, P.Running)] else s.rows)
            && end.live == (if starts && (o[0] == AckLost || o[1] == Ok || o[2] == Failed) then s.live + {w} else s.live)
            && end.status == s.status && end.held == s.held
    ensures AnswerAlone(s, o, tick) ==
              if o[0] == Ok && P.WorkflowId(c, tick) !in s.live && o[1] == Ok then Success else Thrown
  {
    var w, pc := P.WorkflowId(c, tick), P.Starting(c);
    var t := P.Advance(s, 0, pc, o[0], tick);
    StartingAdvances(s, c, o[0], tick);
    OneStep(s, pc, t, o, tick);
    if o[0] == Ok && w !in s.live {
      SameRowsSameActive(s, t, c);
      InsertEnds(t, c, w, o[1..], tick);
      assert t.live - {w} == s.live;
    }
  }

  lemma StartingAdvances(s: P.World, c: CampaignId, o: Outcome, tick: nat)
    requires s.handlers == map[0 := P.Starting(c)]
    ensures var w, t := P.WorkflowId(c, tick), P.Advance(s, 0, P.Starting(c), o, tick);
            && t.rows == s.rows && t.status == s.status && t.held == s.held
            && t.live == (if o == Failed || w in s.live then s.live else s.live + {w})
            && t.handlers == (if o == Ok && w !in s.live then map[0 := P.Inserting(c, w)] else map[])
  {
  }

  lemma SameRowsSameActive(s: P.World, t: P.World, c: CampaignId)
    requires s.rows == t.rows
    ensures P.HasActive(s, c) == P.HasActive(t, c)
  {
    forall r ensures P.IsActiveRow(t, r, c) == P.IsActiveRow(s, r, c) {}
  }

  /** POST :id/execute. It succeeds exactly if the campaign exists, has no active execution, its id is
      not in use and three calls succeed; then one workflow lives that a running row names. An insert
      that fails is followed by a cancel, so that no workflow is left unless the cancel fails as well,
      or the start itself was not acknowledged. */
  lemma ExecuteEnds(s: P.World, c: CampaignId, o: seq<Outcome>, tick: nat)
    requires |o| == 4 && s.handlers == map[0 := P.Checking(c)] && tick !in s.rows
    ensures var w, end, answer := P.WorkflowId(c, tick), RunAlone(s, o, tick), AnswerAlone(s, o, tick);
            var starts := o[0] == Ok && c in s.status && !P.HasActive(s, c) && o[1] != Failed && w !in s.live;
            && end.rows == (if starts && o[1] == Ok && o[2] != Failed then s.rows[tick := P.Execution(c, w, P.Running)] else s.rows)
            && end.live == (if starts && (o[1] == AckLost || o[2] == Ok || o[3] == Failed) then s.live + {w} else s.live)
            && end.status == s.status && end.held == s.held
            && (answer == Success <==> starts && o[1] == Ok && o[2] == Ok)
            && (answer == Rejected <==> o[0] == Ok && c in s.status && P.HasActive(s, c))
  {
    var pc := P.Checking(c);
    var t := P.Advance(s, 0, pc, o[0], tick);
    OneStep(s, pc, t, o, tick);
    if o[0] == Ok && c in s.status && !P.HasActive(s, c) {
      SameRowsSameActive(s, t, c);
      StartEnds(t, c, o[1..], tick);
    }
  }

  // ---------------------------------------------------------------- stop and cancel

  /** The row update: an inactive row collides with nothing. */
  lemma MarkingEnds(s: P.World, c: CampaignId, a: P.Action, r: P.RowId, w: P.WorkflowId, o: seq<Outcome>)
    requires o != [] && P.Kills(a) && s.handlers == map[0 := P.Marking(c, a, r, w)] && r in s.rows
    ensures var end := RunAlone(s, o, 0);
            && end.rows == (if o[0] != Failed then s.rows[r := s.rows[r].(status := P.Cancelled)] else s.rows)
            && end.status == s.status && end.live == s.live && end.held == s.held
    ensures AnswerAlone(s, o, 0) == if o[0] == Ok then Success else Thrown
  {
    var pc := P.Marking(c, a, r, w);
    OneStep(s, pc, P.Advance(s, 0, pc, o[0], 0), o, 0);
  }

  /** Saving and marking. */
  lemma SavingEnds(s: P.World, c: CampaignId, a: P.Action, r: Option<P.RowId>, w: Option<P.WorkflowId>, o: seq<Outcome>)
    requires |o| >= 2 && P.Kills(a) && s.handlers == map[0 := P.Saving(c, a, r, w)]
    requires r.Some? ==> r.value in s.rows && w.Some?
    ensures var end := RunAlone(s, o, 0);
            && end.status == (if o[0] != Failed then s.status[c := C.Stopped] else s.status)
            && end.rows == (if o[0] == Ok && r.Some? && o[1] != Failed
                            then s.rows[r.value := s.rows[r.value].(status := P.Cancelled)] else s.rows)
            && end.live == s.live && end.held == s.held
            && AnswerAlone(s, o, 0) == if o[0] == Ok && (r.Some? ==> o[1] == Ok) then Success else Thrown
  {
    var t := SavingStep(s, c, a, r, w, o);
    if o[0] == Ok && r.Some? { MarkingEnds(t, c, a, r.value, w.value, o[1..]); }
  }

  /** Loading, saving and marking, once the signal was acknowledged or there was none to send. */
  lemma StoppingEnds(s: P.World, c: CampaignId, a: P.Action, r: Option<P.RowId>, w: Option<P.WorkflowId>, o: seq<Outcome>)
    requires |o| >= 3 && P.Kills(a) && s.handlers == map[0 := P.Loading(c, a, r, w)]
    requires r.Some? ==> r.value in s.rows && w.Some?
    ensures var end := RunAlone(s, o, 0);
            var loads := o[0] == Ok && Accepts(s, c, a);
            && end.status == (if loads && o[1] != Failed then s.status[c := C.Stopped] else s.status)
            && end.rows == (if loads && o[1] == Ok && r.Some? && o[2] != Failed
                            then s.rows[r.value := s.rows[r.value].(status := P.Cancelled)] else s.rows)
            && end.live == s.live && end.held == s.held
            && (AnswerAlone(s, o, 0) == Success <==> loads && o[1] == Ok && (r.Some? ==> o[2] == Ok))
            && (AnswerAlone(s, o, 0) == Rejected <==> o[0] == Ok && !Accepts(s, c, a))
  {
    var pc := P.Loading(c, a, r, w);
    var t := P.Advance(s, 0, pc, o[0], 0);
    OneStep(s, pc, t, o, 0);
    if o[0] == Ok && Accepts(s, c, a) { SavingEnds(t, c, a, r, w, o[1..]); }
  }

  /** The workflow that a stop or a cancel tells to end, if there is one: a cancel prefers the one its
      request names. */
  ghost function Told(s: P.World, a: P.Action, r: Option<P.RowId>): Option<P.WorkflowId>
    requires r.Some? ==> r.value in s.rows
  {
    if a.Cancel? && a.body.Some? then a.body
    else if r.Some? then Some(s.rows[r.value].workflow) else None
  }

  /** `r` is the campaign's active row, if it has one. */
  ghost predicate IsTheActiveRow(s: P.World, c: CampaignId, r: Option<P.RowId>) {
    && P.OneActiveRow(s)
    && (if r.Some? then P.IsActiveRow(s, r.value, c) else !P.HasActive(s, c))
  }

  /** The signal and what follows. */
  lemma KillingEnds(s: P.World, c: CampaignId, a: P.Action, r: Option<P.RowId>, w: P.WorkflowId, o: seq<Outcome>)
    requires |o| >= 4 && P.Kills(a) && s.handlers == map[0 := P.Signalling(c, a, r, w)]
    requires r.Some? ==> r.value in s.rows
    ensures var end := RunAlone(s, o, 0);
            var loads := o[0] == Ok && o[1] == Ok && Accepts(s, c, a);
            && end.live == (if o[0] != Failed then s.live - {w} else s.live)
            && end.status == (if loads && o[2] != Failed then s.status[c := C.Stopped] else s.status)
            && end.rows == (if loads && o[2] == Ok && r.Some? && o[3] != Failed
                            then s.rows[r.value := s.rows[r.value].(status := P.Cancelled)] else s.rows)
            && end.held == s.held
            && (AnswerAlone(s, o, 0) == Success <==> loads && o[2] == Ok && (r.Some? ==> o[3] == Ok))
            && (AnswerAlone(s, o, 0) == Rejected <==> o[0] == Ok && o[1] == Ok && !Accepts(s, c, a))
  {
    var pc := P.Signalling(c, a, r, w);
    var t := P.Advance(s, 0, pc, o[0], 0);
    OneStep(s, pc, t, o, 0);
    if o[0] == Ok { StoppingEnds(t, c, a, r, Some(w), o[1..]); }
  }

  /** Reading the active row. */
  lemma ReadingFinds(s: P.World, c: CampaignId, a: P.Action, r: Option<P.RowId>, o: Outcome)
    requires P.Kills(a) && s.handlers == map[0 := P.Reading(c, a)]
    requires IsTheActiveRow(s, c, r) && Told(s, a, r).Some?
    ensures P.Advance(s, 0, P.Reading(c, a), o, 0) ==
              s.(handlers := if o == Ok then map[0 := P.Signalling(c, a, r, Told(s, a, r).value)] else map[])
  {
    var found := P.GetActive(s, c);
    assert found == r;
  }

  /** POST :id/stop and POST :id/execution/cancel of something to be ended. The workflow ends as soon as
      the signal arrives, even if the campaign then refuses to be stopped; a campaign that accepts is
      STOPPED once its save arrives, and its row is CANCELLED once the row update does. Nothing is
      compensated. */
  lemma StopOrCancelEnds(s: P.World, c: CampaignId, a: P.Action, r: Option<P.RowId>, o: seq<Outcome>)
    requires |o| == 5 && P.Kills(a) && s.handlers == map[0 := P.Reading(c, a)]
    requires IsTheActiveRow(s, c, r) && Told(s, a, r).Some?
    ensures var end := RunAlone(s, o, 0);
            var loads := o[0] == Ok && o[1] == Ok && o[2] == Ok && Accepts(s, c, a);
            && end.live == (if o[0] == Ok && o[1] != Failed then s.live - {Told(s, a, r).value} else s.live)
            && end.status == (if loads && o[3] != Failed then s.status[c := C.Stopped] else s.status)
            && end.rows == (if loads && o[3] == Ok && r.Some? && o[4] != Failed
                            then s.rows[r.value := s.rows[r.value].(status := P.Cancelled)] else s.rows)
            && end.held == s.held
            && (AnswerAlone(s, o, 0) == Success <==> loads && o[3] == Ok && (r.Some? ==> o[4] == Ok))
            && (AnswerAlone(s, o, 0) == Rejected <==> o[0] == Ok && o[1] == Ok && o[2] == Ok && !Accepts(s, c, a))
  {
    var read, w := P.Reading(c, a), Told(s, a, r).value;
    ReadingFinds(s, c, a, r, o[0]);
    var t := P.Advance(s, 0, read, o[0], 0);
    OneStep(s, read, t, o, 0);
    if o[0] == Ok { KillingEnds(t, c, a, r, w, o[1..]); }
  }

  /** With no execution, a stop stops the campaign alone, and a cancel that names no workflow is refused
      and changes nothing. */
  lemma StopOrCancelOfNothingEnds(s: P.World, c: CampaignId, a: P.Action, o: seq<Outcome>)
    requires |o| == 5 && P.Kills(a) && s.handlers == map[0 := P.Reading(c, a)]
    requires IsTheActiveRow(s, c, None) && Told(s, a, None).None?
    ensures var end := RunAlone(s, o, 0);
            var stored := a.Stop? && o[0] == Ok && o[1] == Ok && Accepts(s, c, a) && o[2] != Failed;
            && end.status == (if stored then s.status[c := C.Stopped] else s.status)
            && end.rows == s.rows && end.live == s.live && end.held == s.held
            && (AnswerAlone(s, o, 0) == Success <==> stored && o[2] == Ok)
            && (AnswerAlone(s, o, 0) == Rejected <==> o[0] == Ok && (a.Stop? ==> o[1] == Ok && !Accepts(s, c, a)))
  {
    var read := P.Reading(c, a);
    var t := P.Advance(s, 0, read, o[0], 0);
    OneStep(s, read, t, o, 0);
    if o[0] == Ok {
      assert P.GetActive(s, c) == None;
      if a.Stop? {
        assert t.handlers == map[0 := P.Loading(c, a, None, None)];
        StoppingEnds(t, c, a, None, None, o[1..]);
      }
    }
  }

  /** POST :id/pause and POST :id/resume without an execution are refused and change nothing; with one,
      `PauseOrResumeEnds` says where they end. */
  lemma PauseOrResumeOfNothingEnds(s: P.World, c: CampaignId, a: P.Action, o: seq<Outcome>)
    requires o != [] && !P.Kills(a) && s.handlers == map[0 := P.Reading(c, a)] && !P.HasActive(s, c)
    ensures RunAlone(s, o, 0) == s.(handlers := map[])
    ensures AnswerAlone(s, o, 0) == if o[0] == Ok then Rejected else Thrown
  {
    var read := P.Reading(c, a);
    OneStep(s, read, P.Advance(s, 0, read, o[0], 0), o, 0);
    assert P.GetActive(s, c) == None;
  }

  // ---------------------------------------------------------------- calls that only edit the campaign

  /** What an edit makes of the status it has loaded, if it accepts it: an update takes the status that
      it names and keeps the loaded one if it names none, a schedule makes a draft SCHEDULED, and a turn
      of a bulk call switches between SENDING and PAUSED. */
  predicate Makes(edit: P.Edit, loaded: C.Status, saved: C.Status) {
    match edit
    case Change(to) => if to.None? then saved == loaded else saved == to.value && C.MayBecome(loaded, saved)
    case Schedule => loaded == C.Draft && saved == C.Scheduled
    case BulkTurn(pause) =>
      if pause then loaded == C.Sending && saved == C.Paused else loaded == C.Paused && saved == C.Sending
  }

  lemma WritingEnds(s: P.World, c: CampaignId, st: C.Status, o: seq<Outcome>)
    requires o != [] && s.handlers == map[0 := P.Writing(c, st)]
    ensures RunAlone(s, o, 0) == s.(status := if o[0] != Failed then s.status[c := st] else s.status, handlers := map[])
    ensures AnswerAlone(s, o, 0) == if o[0] == Ok then Success else Thrown
  {
    var pc := P.Writing(c, st);
    OneStep(s, pc, P.Advance(s, 0, pc, o[0], 0), o, 0);
  }

  lemma ChosenIs(edit: P.Edit, loaded: C.Status, saved: C.Status)
    ensures P.Chosen(edit, loaded) == Some(saved) <==> Makes(edit, loaded, saved)
  {
  }

  /** What the edit makes of the campaign is saved, whatever has become of it since; executions and
      workflows are left alone. */
  lemma EditEnds(s: P.World, c: CampaignId, edit: P.Edit, o: seq<Outcome>, saved: C.Status)
    requires |o| == 2 && s.handlers == map[0 := P.Fetching(c, edit)]
    requires o[0] == Ok && c in s.status && Makes(edit, s.status[c], saved)
    ensures RunAlone(s, o, 0) == s.(status := if o[1] != Failed then s.status[c := saved] else s.status, handlers := map[])
    ensures AnswerAlone(s, o, 0) == if o[1] == Ok then Success else Thrown
  {
    var pc := P.Fetching(c, edit);
    var t := P.Advance(s, 0, pc, o[0], 0);
    OneStep(s, pc, t, o, 0);
    ChosenIs(edit, s.status[c], saved);
    assert t == s.(handlers := map[0 := P.Writing(c, saved)]);
    WritingEnds(t, c, saved, o[1..]);
  }

  /** An edit that the campaign's status does not allow, or whose campaign cannot be loaded, changes
      nothing. */
  lemma RefusedEditEnds(s: P.World, c: CampaignId, edit: P.Edit, o: seq<Outcome>)
    requires |o| == 2 && s.handlers == map[0 := P.Fetching(c, edit)]
    requires o[0] != Ok || c !in s.status || forall saved :: !Makes(edit, s.status[c], saved)
    ensures RunAlone(s, o, 0) == s.(handlers := map[])
    ensures AnswerAlone(s, o, 0) == if o[0] == Ok then Rejected else Thrown
  {
    var pc := P.Fetching(c, edit);
    if c in s.status {
      forall saved ensures P.Chosen(edit, s.status[c]) != Some(saved) || o[0] != Ok { ChosenIs(edit, s.status[c], saved); }
    }
    OneStep(s, pc, P.Advance(s, 0, pc, o[0], 0), o, 0);
  }
}
