/** The campaign status column and the transitions that `CampaignsService` allows. */
module CampaignStatus {
  import opened Prelude

  datatype Status = Draft | Scheduled | Sending | Paused | Stopped | Completed | SendingTestAb

  /** `validateStatusTransition`: the targets an update may name from each status. */
  function ValidTargets(current: Status): set<Status> {
    match current
    case Draft => {Scheduled, Sending, Draft}
    case Scheduled => {Sending, Draft, Scheduled}
    case Sending => {Paused, Stopped, Completed, Sending}
    case Paused => {Sending, Stopped, Paused}
    case Stopped => {Stopped}
    case Completed => {Completed}
    case SendingTestAb => {Sending, Stopped, SendingTestAb}
  }

  /** The guarded transitions with their own service method. */
  datatype Verb = Schedule | Pause | Resume | Stop

  predicate Allowed(v: Verb, current: Status) {
    match v
    case Schedule => current == Draft
    case Pause => current == Sending
    case Resume => current == Paused
    case Stop => current in {Draft, Scheduled, Sending, Paused}
  }

  function Target(v: Verb): Status {
    match v
    case Schedule => Scheduled
    case Pause => Paused
    case Resume => Sending
    case Stop => Stopped
  }

  // ---------------------------------------------------------------- the calls

  /** A control message for the workers. */
  datatype Control = Control(id: CampaignId, v: Verb)

  /** The campaigns, and the messages the broker has taken, oldest first. */
  datatype Board = Board(statuses: map<CampaignId, Status>, names: map<CampaignId, string>, published: seq<Control>)

  datatype BulkVerb = BulkPause | BulkResume | BulkDelete

  /** What reaches the service, with the outcome of each save and whether the broker takes the
      message. A bulk call works through the campaigns it found, each once. */
  datatype Call =
    | Transition(id: CampaignId, v: Verb, save: Outcome, brokerUp: bool)
    | Update(id: CampaignId, name: Option<string>, to: Option<Status>, save: Outcome)
    | Bulk(bulk: BulkVerb, found: seq<CampaignId>, saves: map<CampaignId, Outcome>, reached: set<CampaignId>)

  function SaveOf(saves: map<CampaignId, Outcome>, id: CampaignId): Outcome {
    if id in saves then saves[id] else Ok
  }

  /** `schedule` alone publishes nothing. */
  function Messages(id: CampaignId, v: Verb, accepted: bool, brokerUp: bool): seq<Control> {
    if accepted && v != Schedule && brokerUp then [Control(id, v)] else []
  }

  /** One guarded transition of a campaign that exists. */
  function AfterTransition(b: Board, id: CampaignId, v: Verb, save: Outcome, brokerUp: bool): Board {
    if id !in b.statuses || !Allowed(v, b.statuses[id]) || save == Failed then b
    else b.(statuses := b.statuses[id := Target(v)], published := b.published + Messages(id, v, save == Ok, brokerUp))
  }

  /** The new name belongs to another campaign. An empty name is not checked. */
  predicate NameTaken(b: Board, id: CampaignId, name: Option<string>) {
    name.Some? && name.value != "" && (id in b.names ==> name.value != b.names[id]) && name.value in b.names.Values
  }

  predicate UpdateAccepted(b: Board, id: CampaignId, name: Option<string>, to: Option<Status>) {
    id in b.statuses && !NameTaken(b, id, name) && (to.Some? ==> to.value in ValidTargets(b.statuses[id]))
  }

  function AfterUpdate(b: Board, id: CampaignId, name: Option<string>, to: Option<Status>, save: Outcome): Board {
    if !UpdateAccepted(b, id, name, to) || save == Failed then b
    else b.(statuses := if to.Some? then b.statuses[id := to.value] else b.statuses,
            names := if name.Some? then b.names[id := name.value] else b.names)
  }

  function AfterDelete(b: Board, id: CampaignId, save: Outcome): Board {
    if save == Failed then b else b.(statuses := b.statuses - {id}, names := b.names - {id})
  }

  /** One turn of the bulk loop. */
  function AfterTurn(b: Board, bulk: BulkVerb, id: CampaignId, save: Outcome, brokerUp: bool): Board {
    match bulk
    case BulkPause => AfterTransition(b, id, Pause, save, brokerUp)
    case BulkResume => AfterTransition(b, id, Resume, save, brokerUp)
    case BulkDelete => AfterDelete(b, id, save)
  }

  function AfterBulk(b: Board, bulk: BulkVerb, found: seq<CampaignId>, saves: map<CampaignId, Outcome>, reached: set<CampaignId>): Board
    decreases |found|
  {
    if found == [] then b
    else
      var id := found[|found| - 1];
      AfterTurn(AfterBulk(b, bulk, found[..|found| - 1], saves, reached), bulk, id, SaveOf(saves, id), id in reached)
  }

  /** The campaigns a bulk call counts: the turn was allowed and its save acknowledged. */
  predicate TurnCounts(b: Board, bulk: BulkVerb, id: CampaignId, save: Outcome) {
    save == Ok && id in b.statuses &&
    match bulk
    case BulkPause => Allowed(Pause, b.statuses[id])
    case BulkResume => Allowed(Resume, b.statuses[id])
    case BulkDelete => true
  }

  function BulkCount(b: Board, bulk: BulkVerb, found: seq<CampaignId>, saves: map<CampaignId, Outcome>): nat
    decreases |found|
  {
    if found == [] then 0
    else
      var id := found[|found| - 1];
      BulkCount(b, bulk, found[..|found| - 1], saves) + if TurnCounts(b, bulk, id, SaveOf(saves, id)) then 1 else 0
  }

  function AfterCall(b: Board, call: Call): Board {
    match call
    case Transition(id, v, save, brokerUp) => AfterTransition(b, id, v, save, brokerUp)
    case Update(id, name, to, save) => AfterUpdate(b, id, name, to, save)
    case Bulk(bulk, found, saves, reached) => AfterBulk(b, bulk, found, saves, reached)
  }

  function After(b: Board, calls: seq<Call>): Board
    decreases |calls|
  {
    if calls == [] then b else AfterCall(After(b, calls[..|calls| - 1]), calls[|calls| - 1])
  }

  // ---------------------------------------------------------------- the service

  datatype Answer = Saved | NotFound | Refused | Conflict | SaveThrew

  datatype BulkAnswer = NoIds | NoneFound | Affected(count: nat)

  class CampaignsService {
    var statuses: map<CampaignId, Status>
    var names: map<CampaignId, string>
    var published: seq<Control>

    constructor ()
      ensures Value() == Board(map[], map[], [])
    {
      statuses, names, published := map[], map[], [];
    }

    function Value(): Board
      reads this
    {
      Board(statuses, names, published)
    }

    /** `publishControl`: a broker failure is logged and swallowed. */
    method PublishControl(id: CampaignId, v: Verb, brokerUp: bool)
      modifies this`published
      ensures published == old(published) + (if brokerUp then [Control(id, v)] else [])
    {
      if brokerUp { published := published + [Control(id, v)]; }
    }

    /** `schedule`, `pause`, `resume` and `stop`. */
    method Guarded(id: CampaignId, v: Verb, save: Outcome, brokerUp: bool) returns (answer: Answer)
      modifies this
      ensures Value() == AfterTransition(old(Value()), id, v, save, brokerUp)
      ensures answer == if id !in old(statuses) then NotFound
                        else if !Allowed(v, old(statuses[id])) then Refused
                        else if save == Ok then Saved else SaveThrew
    {
      if id !in statuses { return NotFound; }
      if !Allowed(v, statuses[id]) { return Refused; }
      if save == Failed { return SaveThrew; }
      statuses := statuses[id := Target(v)];
      if save == AckLost { return SaveThrew; }
      if v != Schedule { PublishControl(id, v, brokerUp); }
      answer := Saved;
    }

    /** `update`, as far as the name and the status are concerned. */
    method Change(id: CampaignId, name: Option<string>, to: Option<Status>, save: Outcome) returns (answer: Answer)
      modifies this
      ensures Value() == AfterUpdate(old(Value()), id, name, to, save)
      ensures answer == if id !in old(statuses) then NotFound
                        else if NameTaken(old(Value()), id, name) then Conflict
                        else if to.Some? && to.value !in ValidTargets(old(statuses[id])) then Refused
                        else if save == Ok then Saved else SaveThrew
    {
      if id !in statuses { return NotFound; }
      if name.Some? && name.value != "" && (id in names ==> name.value != names[id]) {
        if name.value in names.Values { return Conflict; }
      }
      if to.Some? && to.value !in ValidTargets(statuses[id]) { return Refused; }
      if save == Failed { return SaveThrew; }
      if to.Some? { statuses := statuses[id := to.value]; }
      if name.Some? { names := names[id := name.value]; }
      answer := if save == Ok then Saved else SaveThrew;
    }

    /** `bulkAction`: every campaign found is tried, whatever happens to the others. `found` is the
        table's answer to the ids. */
    method BulkAction(bulk: BulkVerb, ids: seq<CampaignId>, found: seq<CampaignId>, saves: map<CampaignId, Outcome>,
                      reached: set<CampaignId>)
      returns (answer: BulkAnswer)
      requires Distinct(found) && forall id :: id in found <==> id in ids && id in statuses
      modifies this
      ensures Value() == AfterBulk(old(Value()), bulk, found, saves, reached)
      ensures answer == if ids == [] then NoIds
                        else if found == [] then NoneFound
                        else Affected(BulkCount(old(Value()), bulk, found, saves))
    {
      assert found == [] || found[0] in found;
      if |ids| == 0 { return NoIds; }
      if |found| == 0 { return NoneFound; }
      ghost var b := Value();
      var count := 0;
      for i := 0 to |found|
        invariant Value() == AfterBulk(b, bulk, found[..i], saves, reached)
        invariant count == BulkCount(b, bulk, found[..i], saves)
      {
        assert found[..i + 1][..i] == found[..i];
        BulkElsewhere(b, bulk, found[..i], saves, reached, found[i]);
        var counts := TryOne(bulk, found[i], SaveOf(saves, found[i]), found[i] in reached);
        if counts { count := count + 1; }
      }
      assert found[..|found|] == found;
      answer := Affected(count);
    }

    method TryOne(bulk: BulkVerb, id: CampaignId, save: Outcome, brokerUp: bool) returns (counts: bool)
      requires id in statuses
      modifies this
      ensures Value() == AfterTurn(old(Value()), bulk, id, save, brokerUp)
      ensures counts == TurnCounts(old(Value()), bulk, id, save)
    {
      counts := false;
      if bulk == BulkDelete {
        if save != Failed { statuses, names := statuses - {id}, names - {id}; }
        counts := save == Ok;
        return;
      }
      var v := if bulk == BulkPause then Pause else Resume;
      if Allowed(v, statuses[id]) {
        if save == Failed { return; }
        statuses := statuses[id := Target(v)];
        if save == Ok {
          PublishControl(id, v, brokerUp);
          counts := true;
        }
      }
    }
  }

  // ---------------------------------------------------------------- what each call amounts to

  /** The eleven moves that an update may make; it may also stay where it is. */
  predicate MayBecome(from: Status, to: Status) {
    || from == to
    || (from == Draft && to in {Scheduled, Sending})
    || (from == Scheduled && to in {Sending, Draft})
    || (from == Sending && to in {Paused, Stopped, Completed})
    || (from == Paused && to in {Sending, Stopped})
    || (from == SendingTestAb && to in {Sending, Stopped})
  }

  /** What a guarded call turns a campaign into, and what it tells the workers: a draft is scheduled in
      silence; pause and resume go back and forth; everything unfinished but a split test is stopped. */
  predicate Turns(v: Verb, from: Status, to: Status) {
    match v
    case Schedule => from == Draft && to == Scheduled
    case Pause => from == Sending && to == Paused
    case Resume => from == Paused && to == Sending
    case Stop => from != Stopped && from != Completed && from != SendingTestAb && to == Stopped
  }

  /** Everything a guarded call does, by what it finds. */
  lemma TransitionEnds(b: Board, id: CampaignId, v: Verb, save: Outcome, brokerUp: bool, to: Status)
    ensures var b' := AfterTransition(b, id, v, save, brokerUp);
            && b'.names == b.names
            && (id in b.statuses && Turns(v, b.statuses[id], to) && save != Failed ==>
                  && b'.statuses == b.statuses[id := to]
                  && b'.published == b.published + if save == Ok && brokerUp && v != Schedule then [Control(id, v)] else [])
            && (id !in b.statuses || (forall st :: !Turns(v, b.statuses[id], st)) || save == Failed ==> b' == b)
  {
    assert b.published + [] == b.published;
    if id in b.statuses && Allowed(v, b.statuses[id]) { assert Turns(v, b.statuses[id], Target(v)); }
  }

  /** Everything an update does. A name that another campaign has and a move outside of the eleven are
      refused, and then nothing is stored. */
  lemma UpdateEnds(b: Board, id: CampaignId, name: Option<string>, to: Option<Status>, save: Outcome)
    ensures var b' := AfterUpdate(b, id, name, to, save);
            var taken := name.Some? && name.value != "" && exists other :: other in b.names && other != id && b.names[other] == name.value;
            var own := name.Some? && id in b.names && name.value == b.names[id];
            var moves := id in b.statuses && (to.Some? ==> MayBecome(b.statuses[id], to.value));
            && b'.published == b.published
            && (save == Failed || !moves || (taken && !own) ==> b' == b)
            && (save != Failed && moves && (!taken || own) ==>
                  && b'.statuses == (if to.Some? then b.statuses[id := to.value] else b.statuses)
                  && b'.names == (if name.Some? then b.names[id := name.value] else b.names))
  {
    if name.Some? && name.value in b.names.Values {
      var other :| other in b.names && b.names[other] == name.value;
    }
  }

  /** What a bulk call leaves of each campaign that it found. */
  lemma BulkEnds(b: Board, bulk: BulkVerb, found: seq<CampaignId>, saves: map<CampaignId, Outcome>, reached: set<CampaignId>, id: CampaignId)
    requires Distinct(found) && id in found && id in b.statuses
    ensures var b', saved := AfterBulk(b, bulk, found, saves, reached), id !in saves || saves[id] != Failed;
            && (id in b'.statuses <==> !(bulk.BulkDelete? && saved))
            && (id in b'.statuses ==>
                  b'.statuses[id] ==
                    if bulk.BulkPause? && b.statuses[id] == Sending && saved then Paused
                    else if bulk.BulkResume? && b.statuses[id] == Paused && saved then Sending
                    else b.statuses[id])
  {
    BulkIsOneTurn(b, bulk, found, saves, reached, id);
  }

  /** The campaigns that a bulk call counts: found, in the status that the verb asks for, and saved with
      an acknowledgement. */
  ghost function Counted(b: Board, bulk: BulkVerb, found: seq<CampaignId>, saves: map<CampaignId, Outcome>): set<CampaignId> {
    set id | id in found && id in b.statuses && (id !in saves || saves[id] == Ok)
             && (bulk.BulkPause? ==> b.statuses[id] == Sending) && (bulk.BulkResume? ==> b.statuses[id] == Paused)
  }

  lemma {:induction false} BulkCountIs(b: Board, bulk: BulkVerb, found: seq<CampaignId>, saves: map<CampaignId, Outcome>)
    requires Distinct(found)
    ensures BulkCount(b, bulk, found, saves) == |Counted(b, bulk, found, saves)|
    decreases |found|
  {
    if found != [] {
      var init, last := found[..|found| - 1], found[|found| - 1];
      assert found == init + [last];
      BulkCountIs(b, bulk, init, saves);
      assert last !in init;
      CountedSnoc(b, bulk, init, last, saves);
    }
  }

  lemma CountedSnoc(b: Board, bulk: BulkVerb, init: seq<CampaignId>, last: CampaignId, saves: map<CampaignId, Outcome>)
    ensures Counted(b, bulk, init + [last], saves) ==
              Counted(b, bulk, init, saves) + if TurnCounts(b, bulk, last, SaveOf(saves, last)) then {last} else {}
  {
    assert forall id :: id in init + [last] <==> id in init || id == last;
  }

  // ---------------------------------------------------------------- what one call does to one campaign

  /** The campaign is as it was; what the board says of it includes the messages about it. */
  predicate SameOf(b: Board, b': Board, id: CampaignId) {
    && (id in b.statuses <==> id in b'.statuses)
    && (id in b.statuses ==> b.statuses[id] == b'.statuses[id])
    && LastControl(b.published, id) == LastControl(b'.published, id)
  }

  /** The latest message about a campaign. */
  function LastControl(published: seq<Control>, id: CampaignId): Option<Verb>
    decreases |published|
  {
    if published == [] then None
    else if published[|published| - 1].id == id then Some(published[|published| - 1].v)
    else LastControl(published[..|published| - 1], id)
  }

  lemma LastControlSnoc(published: seq<Control>, m: Control, id: CampaignId)
    ensures LastControl(published + [m], id) == if m.id == id then Some(m.v) else LastControl(published, id)
  {
    assert (published + [m])[..|published|] == published;
  }

  lemma TurnElsewhere(b: Board, bulk: BulkVerb, other: CampaignId, save: Outcome, brokerUp: bool, id: CampaignId)
    requires id != other
    ensures SameOf(b, AfterTurn(b, bulk, other, save, brokerUp), id)
  {
    LastControlSnoc(b.published, Control(other, Pause), id);
    LastControlSnoc(b.published, Control(other, Resume), id);
    assert b.published + [] == b.published;
  }

  /** A bulk call leaves the campaigns alone that it did not find. */
  lemma {:induction false} BulkElsewhere(b: Board, bulk: BulkVerb, found: seq<CampaignId>, saves: map<CampaignId, Outcome>, reached: set<CampaignId>, id: CampaignId)
    requires id !in found
    ensures SameOf(b, AfterBulk(b, bulk, found, saves, reached), id)
    decreases |found|
  {
    if found != [] {
      var init, last := found[..|found| - 1], found[|found| - 1];
      assert found == init + [last];
      BulkElsewhere(b, bulk, init, saves, reached, id);
      TurnElsewhere(AfterBulk(b, bulk, init, saves, reached), bulk, last, SaveOf(saves, last), last in reached, id);
    }
  }

  /** A bulk call does to a campaign that it found what one turn would do. */
  lemma {:induction false} BulkIsOneTurn(b: Board, bulk: BulkVerb, found: seq<CampaignId>, saves: map<CampaignId, Outcome>, reached: set<CampaignId>, id: CampaignId)
    requires Distinct(found) && id in found
    ensures SameOf(AfterTurn(b, bulk, id, SaveOf(saves, id), id in reached), AfterBulk(b, bulk, found, saves, reached), id)
    decreases |found|
  {
    var init, last := found[..|found| - 1], found[|found| - 1];
    assert found == init + [last];
    var m := AfterBulk(b, bulk, init, saves, reached);
    if id == last {
      assert id !in init;
      BulkElsewhere(b, bulk, init, saves, reached, id);
      SameTurn(b, m, bulk, id, SaveOf(saves, id), id in reached);
    } else {
      BulkIsOneTurn(b, bulk, init, saves, reached, id);
      TurnElsewhere(m, bulk, last, SaveOf(saves, last), last in reached, id);
    }
  }

  lemma SameTurn(b: Board, m: Board, bulk: BulkVerb, id: CampaignId, save: Outcome, brokerUp: bool)
    requires SameOf(b, m, id)
    ensures SameOf(AfterTurn(b, bulk, id, save, brokerUp), AfterTurn(m, bulk, id, save, brokerUp), id)
  {
    TurnControl(b, bulk, id, save, brokerUp);
    TurnControl(m, bulk, id, save, brokerUp);
  }

  lemma TurnControl(b: Board, bulk: BulkVerb, id: CampaignId, save: Outcome, brokerUp: bool)
    ensures LastControl(AfterTurn(b, bulk, id, save, brokerUp).published, id) ==
              if !bulk.BulkDelete? && TurnCounts(b, bulk, id, save) && brokerUp
              then Some(if bulk.BulkPause? then Pause else Resume) else LastControl(b.published, id)
  {
    LastControlSnoc(b.published, Control(id, Pause), id);
    LastControlSnoc(b.published, Control(id, Resume), id);
    assert b.published + [] == b.published;
  }

  /** A bulk call found each campaign once. */
  ghost predicate Legal(call: Call) { call.Bulk? ==> Distinct(call.found) }

  /** The moves that the table of transitions and the guards leave open. */
  predicate Reaches(st: Status, st': Status) {
    || st' in ValidTargets(st)
    || (exists v: Verb :: Allowed(v, st) && st' == Target(v))
  }

  lemma CallReaches(b: Board, call: Call, id: CampaignId)
    requires Legal(call)
    ensures var b' := AfterCall(b, call);
            id in b'.statuses ==> id in b.statuses && Reaches(b.statuses[id], b'.statuses[id])
  {
    if call.Bulk? {
      if id in call.found {
        BulkIsOneTurn(b, call.bulk, call.found, call.saves, call.reached, id);
      } else {
        BulkElsewhere(b, call.bulk, call.found, call.saves, call.reached, id);
      }
    }
  }

  // ---------------------------------------------------------------- whole runs

  ghost predicate AllLegal(calls: seq<Call>) { forall call :: call in calls ==> Legal(call) }

  /** A campaign that exists after a run existed throughout it. */
  lemma {:induction false} ExistedBefore(b: Board, calls: seq<Call>, i: nat, id: CampaignId)
    requires AllLegal(calls) && i <= |calls| && id in After(b, calls).statuses
    ensures id in After(b, calls[..i]).statuses
    decreases |calls|
  {
    if i < |calls| {
      var init := calls[..|calls| - 1];
      CallReaches(After(b, init), calls[|calls| - 1], id);
      assert calls[..i] == init[..i];
      ExistedBefore(b, init, i, id);
    } else {
      assert calls[..i] == calls;
    }
  }

  /** STOPPED and COMPLETED are final. */
  lemma {:induction false} FinalStatusesStay(b: Board, calls: seq<Call>, id: CampaignId)
    requires AllLegal(calls) && id in After(b, calls).statuses
    requires id in b.statuses && (b.statuses[id] == Stopped || b.statuses[id] == Completed)
    ensures After(b, calls).statuses[id] == b.statuses[id]
    decreases |calls|
  {
    if calls != [] {
      var init := calls[..|calls| - 1];
      CallReaches(After(b, init), calls[|calls| - 1], id);
      FinalStatusesStay(b, init, id);
    }
  }

  /** No call takes a campaign into SENDING_TESTAB. */
  lemma {:induction false} TestAbIsNeverEntered(b: Board, calls: seq<Call>, id: CampaignId)
    requires AllLegal(calls) && id in After(b, calls).statuses
    requires id in b.statuses && b.statuses[id] != SendingTestAb
    ensures After(b, calls).statuses[id] != SendingTestAb
    decreases |calls|
  {
    if calls != [] {
      var init := calls[..|calls| - 1];
      CallReaches(After(b, init), calls[|calls| - 1], id);
      TestAbIsNeverEntered(b, init, id);
    }
  }

  /** At every step of every run PAUSED is entered from another status only from SENDING, COMPLETED
      likewise, and a campaign is SCHEDULED only out of DRAFT. */
  lemma EnteredOnlyFrom(b: Board, calls: seq<Call>, i: nat, id: CampaignId)
    requires AllLegal(calls) && i < |calls| && id in After(b, calls[..i + 1]).statuses
    ensures id in After(b, calls[..i]).statuses
    ensures var st, st' := After(b, calls[..i]).statuses[id], After(b, calls[..i + 1]).statuses[id];
            && (st' == Paused ==> st == Sending || st == Paused)
            && (st' == Completed ==> st == Sending || st == Completed)
            && (st' == Scheduled ==> st == Draft || st == Scheduled)
  {
    assert calls[..i + 1][..i] == calls[..i];
    CallReaches(After(b, calls[..i]), calls[i], id);
  }

  /** A campaign that was DRAFT reaches PAUSED and COMPLETED only through SENDING. */
  lemma {:induction false} SendingComesFirst(b: Board, calls: seq<Call>, id: CampaignId) returns (i: nat)
    requires AllLegal(calls) && id in b.statuses && b.statuses[id] == Draft && id in After(b, calls).statuses
    requires After(b, calls).statuses[id] == Paused || After(b, calls).statuses[id] == Completed
    ensures i < |calls| && id in After(b, calls[..i]).statuses && After(b, calls[..i]).statuses[id] == Sending
    decreases |calls|
  {
    var init := calls[..|calls| - 1];
    CallReaches(After(b, init), calls[|calls| - 1], id);
    if After(b, init).statuses[id] == Sending {
      i := |init|;
    } else {
      i := SendingComesFirst(b, init, id);
      assert calls[..i] == init[..i];
    }
  }

  /** Two campaigns may share an empty name only. */
  ghost predicate NamesApart(names: map<CampaignId, string>) {
    forall i, j :: i in names && j in names && i != j && names[i] == names[j] ==> names[i] == ""
  }

  lemma {:induction false} BulkKeepsNames(b: Board, bulk: BulkVerb, found: seq<CampaignId>, saves: map<CampaignId, Outcome>, reached: set<CampaignId>)
    requires NamesApart(b.names)
    ensures NamesApart(AfterBulk(b, bulk, found, saves, reached).names)
    decreases |found|
  {
    if found != [] { BulkKeepsNames(b, bulk, found[..|found| - 1], saves, reached); }
  }

  /** The check for a conflict keeps names apart over every run. */
  lemma {:induction false} NamesStayApart(b: Board, calls: seq<Call>)
    requires NamesApart(b.names)
    ensures NamesApart(After(b, calls).names)
    decreases |calls|
  {
    if calls != [] {
      var init, last := calls[..|calls| - 1], calls[|calls| - 1];
      NamesStayApart(b, init);
      if last.Bulk? { BulkKeepsNames(After(b, init), last.bulk, last.found, last.saves, last.reached); }
    }
  }

  // ---------------------------------------------------------------- control messages

  /** The call without its broker. */
  function Unheard(call: Call): Call {
    match call
    case Transition(id, v, save, _) => Transition(id, v, save, false)
    case Update(_, _, _, _) => call
    case Bulk(bulk, found, saves, _) => Bulk(bulk, found, saves, {})
  }

  function AllUnheard(calls: seq<Call>): (r: seq<Call>)
    ensures |r| == |calls|
    decreases |calls|
  {
    if calls == [] then [] else AllUnheard(calls[..|calls| - 1]) + [Unheard(calls[|calls| - 1])]
  }

  predicate SameStored(b: Board, b': Board) { b.statuses == b'.statuses && b.names == b'.names }

  lemma {:induction false} BulkUnheard(b: Board, m: Board, bulk: BulkVerb, found: seq<CampaignId>, saves: map<CampaignId, Outcome>, reached: set<CampaignId>)
    requires SameStored(b, m)
    ensures SameStored(AfterBulk(b, bulk, found, saves, reached), AfterBulk(m, bulk, found, saves, {}))
    decreases |found|
  {
    if found != [] { BulkUnheard(b, m, bulk, found[..|found| - 1], saves, reached); }
  }

  /** What is stored never depends on the broker: a run in which messages fail to be published, here
      and there or everywhere, stores what the run with a working broker stores. */
  lemma {:induction false} BrokerDecidesNothing(b: Board, calls: seq<Call>)
    ensures SameStored(After(b, calls), After(b, AllUnheard(calls)))
    decreases |calls|
  {
    if calls != [] {
      var init, last := calls[..|calls| - 1], calls[|calls| - 1];
      BrokerDecidesNothing(b, init);
      assert AllUnheard(calls)[..|init|] == AllUnheard(init);
      if last.Bulk? {
        BulkUnheard(After(b, init), After(b, AllUnheard(init)), last.bulk, last.found, last.saves, last.reached);
      }
    }
  }

  /** The workers' latest word on the campaign is its status. */
  predicate Told(b: Board, id: CampaignId) {
    id in b.statuses && LastControl(b.published, id).Some? ==> b.statuses[id] == Target(LastControl(b.published, id).value)
  }

  /** The call publishes a message about the campaign. */
  predicate Publishes(b: Board, call: Call, id: CampaignId) {
    match call
    case Transition(c, v, save, up) =>
      c == id && id in b.statuses && Allowed(v, b.statuses[id]) && save == Ok && v != Schedule && up
    case Update(_, _, _, _) => false
    case Bulk(bulk, found, saves, reached) =>
      id in found && id in reached && !bulk.BulkDelete? && TurnCounts(b, bulk, id, SaveOf(saves, id))
  }

  lemma CallControl(b: Board, call: Call, id: CampaignId)
    requires Legal(call)
    ensures var b' := AfterCall(b, call);
            if Publishes(b, call, id)
            then id in b'.statuses && LastControl(b'.published, id) == Some(VerbOf(call)) && b'.statuses[id] == Target(VerbOf(call))
            else LastControl(b'.published, id) == LastControl(b.published, id)
  {
    match call
    case Transition(c, v, save, up) =>
      LastControlSnoc(b.published, Control(c, v), id);
      assert b.published + [] == b.published;
    case Update(_, _, _, _) =>
    case Bulk(bulk, found, saves, reached) =>
      if id in found {
        BulkIsOneTurn(b, bulk, found, saves, reached, id);
        TurnControl(b, bulk, id, SaveOf(saves, id), id in reached);
      } else {
        BulkElsewhere(b, bulk, found, saves, reached, id);
      }
  }

  /** The transition a call makes where it publishes. */
  function VerbOf(call: Call): Verb {
    match call
    case Transition(_, v, _, _) => v
    case Update(_, _, _, _) => Schedule
    case Bulk(bulk, _, _, _) => if bulk.BulkPause? then Pause else Resume
  }

  /** The call leaves the campaign's status alone, as its guards and the outcome of its save decide. */
  predicate LeavesAlone(b: Board, call: Call, id: CampaignId) {
    match call
    case Transition(c, v, save, _) =>
      c != id || id !in b.statuses || !Allowed(v, b.statuses[id]) || save == Failed
    case Update(c, name, to, save) =>
      c != id || to.None? || save == Failed || !UpdateAccepted(b, id, name, to) || to.value == b.statuses[id]
    case Bulk(bulk, found, saves, _) =>
      || id !in found || bulk.BulkDelete? || id !in b.statuses
      || !Allowed(VerbOf(call), b.statuses[id]) || SaveOf(saves, id) == Failed
  }

  /** The call publishes a message about the campaign, or leaves its status alone, or finds that
      nobody was ever told about it. */
  predicate Announces(b: Board, call: Call, id: CampaignId) {
    Publishes(b, call, id) || LastControl(b.published, id).None? || LeavesAlone(b, call, id)
  }

  lemma LeavesAloneIff(b: Board, call: Call, id: CampaignId)
    requires Legal(call) && id in b.statuses && id in AfterCall(b, call).statuses
    ensures LeavesAlone(b, call, id) <==> AfterCall(b, call).statuses[id] == b.statuses[id]
  {
    if call.Bulk? {
      if id in call.found {
        BulkIsOneTurn(b, call.bulk, call.found, call.saves, call.reached, id);
      } else {
        BulkElsewhere(b, call.bulk, call.found, call.saves, call.reached, id);
      }
    }
  }

  /** What the workers have been told stays true exactly if the call announces what it does. An update
      of the status, a lost acknowledgement and a broker that is down do not, and leave the workers
      with an outdated word. */
  lemma ToldIff(b: Board, call: Call, id: CampaignId)
    requires Legal(call) && Told(b, id) && id in AfterCall(b, call).statuses
    ensures Told(AfterCall(b, call), id) <==> Announces(b, call, id)
  {
    CallControl(b, call, id);
    CallReaches(b, call, id);
    LeavesAloneIff(b, call, id);
  }

  /** Over every run of such calls the latest message about a campaign tells its status. */
  lemma {:induction false} ControlsTellTheStatus(b: Board, calls: seq<Call>, id: CampaignId)
    requires AllLegal(calls) && Told(b, id) && id in After(b, calls).statuses
    requires forall i :: 0 <= i < |calls| ==> Announces(After(b, calls[..i]), calls[i], id)
    ensures Told(After(b, calls), id)
    decreases |calls|
  {
    if calls != [] {
      var init := calls[..|calls| - 1];
      forall i | 0 <= i < |init| ensures Announces(After(b, init[..i]), init[i], id) {
        assert calls[..i] == init[..i];
        assert Announces(After(b, calls[..i]), calls[i], id);
      }
      CallReaches(After(b, init), calls[|calls| - 1], id);
      ControlsTellTheStatus(b, init, id);
      assert Announces(After(b, calls[..|init|]), calls[|init|], id);
      ToldIff(After(b, init), calls[|init|], id);
    }
  }
}
