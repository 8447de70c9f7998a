/** Markers and locks that live in Redis for a while: `IdempotencyService` and the trigger claims of
    the journey session cache. Every call is one atomic Redis command, so any interleaving of any
    number of clients is a list of commands in the order of their times, here in seconds. */
module Idempotency {
  import opened Prelude

  const MARK_TTL := 3600
  const LOCK_TTL := 60

  /** Redis rejects a time-to-live that is not positive. */
  type Seconds = n: int | n > 0 witness 1

  datatype Slot = Mark(hash: string) | Lock(hash: string) | Claim(journey: string, contact: string, message: string)

  datatype Entry = Entry(value: string, until: int)

  type Slots = map<Slot, Entry>

  datatype Command =
    | CheckAndMark(hash: string)
    | Acquire(hash: string, token: string)
    | Release(hash: string, token: string)
    | TryClaim(journey: string, contact: string, message: string, ttl: Seconds)

  /** A command, when Redis sees it and how the call ends. */
  datatype Event = Event(at: int, cmd: Command, outcome: Outcome)

  datatype Reply = Yes | No | Threw

  function SlotOf(cmd: Command): Slot {
    match cmd
    case CheckAndMark(hash) => Mark(hash)
    case Acquire(hash, _) => Lock(hash)
    case Release(hash, _) => Lock(hash)
    case TryClaim(j, c, m, _) => Claim(j, c, m)
  }

  function Written(e: Event): Entry {
    match e.cmd
    case CheckAndMark(_) => Entry("1", e.at + MARK_TTL)
    case Acquire(_, token) => Entry(token, e.at + LOCK_TTL)
    case Release(_, token) => Entry(token, e.at)
    case TryClaim(_, _, _, ttl) => Entry("1", e.at + ttl)
  }

  predicate Live(slots: Slots, k: Slot, now: int) { k in slots && now < slots[k].until }

  /** What the command answers when its answer arrives: SET NX on a free slot, or the compare of the
      release script. */
  predicate Succeeds(slots: Slots, e: Event) {
    var k := SlotOf(e.cmd);
    if e.cmd.Release? then Live(slots, k, e.at) && slots[k].value == e.cmd.token else !Live(slots, k, e.at)
  }

  function After(slots: Slots, e: Event): Slots {
    var k := SlotOf(e.cmd);
    if e.outcome.Failed? || !Succeeds(slots, e) then slots
    else if e.cmd.Release? then slots - {k} else slots[k := Written(e)]
  }

  /** What the caller is told. A claim that fails is granted, everything else throws. */
  function ReplyOf(slots: Slots, e: Event): Reply {
    if e.outcome == Ok then (if Succeeds(slots, e) then Yes else No)
    else if e.cmd.TryClaim? then Yes else Threw
  }

  // ---------------------------------------------------------------- the clients

  class RedisServer {
    var slots: Slots
    constructor () ensures slots == map[] { slots := map[]; }

    /** SET key value NX EX ttl. */
    method SetNx(k: Slot, value: string, ttl: Seconds, now: int) returns (set_: bool)
      modifies this
      ensures set_ == !Live(old(slots), k, now)
      ensures slots == if set_ then old(slots)[k := Entry(value, now + ttl)] else old(slots)
    {
      set_ := !Live(slots, k, now);
      if set_ { slots := slots[k := Entry(value, now + ttl)]; }
    }

    /** The release script. */
    method CompareAndDelete(k: Slot, value: string, now: int) returns (deleted: bool)
      modifies this
      ensures deleted == (Live(old(slots), k, now) && old(slots)[k].value == value)
      ensures slots == if deleted then old(slots) - {k} else old(slots)
    {
      deleted := Live(slots, k, now) && slots[k].value == value;
      if deleted { slots := slots - {k}; }
    }
  }

  /** One client. `hits` and `misses` are its metrics. */
  class IdempotencyService {
    const redis: RedisServer
    var hits: nat
    var misses: nat

    constructor (redis: RedisServer)
      ensures this.redis == redis && hits == 0 && misses == 0
    {
      this.redis := redis;
      hits, misses := 0, 0;
    }

    method CheckAndMark(hash: string, now: int, o: Outcome) returns (reply: Reply)
      modifies this, redis
      ensures var e := Event(now, Command.CheckAndMark(hash), o);
              reply == ReplyOf(old(redis.slots), e) && redis.slots == After(old(redis.slots), e)
      ensures misses == old(misses) + (if reply == Yes then 1 else 0)
      ensures hits == old(hits) + (if reply == No then 1 else 0)
    {
      if o == Failed { return Threw; }
      var first := redis.SetNx(Mark(hash), "1", MARK_TTL, now);
      if o == AckLost { return Threw; }
      if first {
        misses := misses + 1;
        return Yes;
      }
      hits := hits + 1;
      reply := No;
    }

    /** The token comes back when the lock was taken. */
    method AcquireLock(hash: string, token: string, now: int, o: Outcome) returns (reply: Reply, held: Option<string>)
      modifies redis
      ensures var e := Event(now, Acquire(hash, token), o);
              reply == ReplyOf(old(redis.slots), e) && redis.slots == After(old(redis.slots), e)
      ensures held == if reply == Yes then Some(token) else None
    {
      if o == Failed { return Threw, None; }
      var ok := redis.SetNx(Lock(hash), token, LOCK_TTL, now);
      if o == AckLost { return Threw, None; }
      if ok { return Yes, Some(token); }
      reply, held := No, None;
    }

    method ReleaseLock(hash: string, token: string, now: int, o: Outcome) returns (reply: Reply)
      modifies redis
      ensures var e := Event(now, Release(hash, token), o);
              reply == ReplyOf(old(redis.slots), e) && redis.slots == After(old(redis.slots), e)
    {
      if o == Failed { return Threw; }
      var released := redis.CompareAndDelete(Lock(hash), token, now);
      if o == AckLost { return Threw; }
      reply := if released then Yes else No;
    }
  }

  class TriggerClaims {
    const redis: RedisServer

    constructor (redis: RedisServer)
      ensures this.redis == redis
    {
      this.redis := redis;
    }

    /** `tryClaimTriggerMessage`: when Redis cannot be asked, the trigger runs. */
    method TryClaimTriggerMessage(j: string, c: string, m: string, ttl: Seconds, now: int, o: Outcome) returns (granted: bool)
      modifies redis
      ensures var e := Event(now, TryClaim(j, c, m, ttl), o);
              granted == (ReplyOf(old(redis.slots), e) == Yes) && redis.slots == After(old(redis.slots), e)
    {
      if o == Failed { return true; }
      var ok := redis.SetNx(Claim(j, c, m), "1", ttl, now);
      granted := ok || o == AckLost;
    }
  }

  // ---------------------------------------------------------------- histories

  function State(h: seq<Event>): Slots
    decreases |h|
  {
    if h == [] then map[] else After(State(h[..|h| - 1]), h[|h| - 1])
  }

  ghost predicate InOrder(h: seq<Event>) {
    forall i, j :: 0 <= i < j < |h| ==> h[i].at <= h[j].at
  }

  /** Command `i` wrote its slot, whether or not its caller was told. */
  predicate Took(h: seq<Event>, i: nat)
    requires i < |h|
  {
    !h[i].cmd.Release? && h[i].outcome != Failed && Succeeds(State(h[..i]), h[i])
  }

  /** A release that reached Redis and names the lock and token of `e`. */
  predicate Frees(r: Event, e: Event) {
    && r.cmd.Release? && e.cmd.Acquire? && r.outcome != Failed
    && r.cmd.hash == e.cmd.hash && r.cmd.token == e.cmd.token
  }

  /** What command `i` wrote still stands at `now`: it has not expired and was not released. */
  ghost predicate Stands(h: seq<Event>, i: nat, now: int)
    requires i < |h|
  {
    && Took(h, i) && now < Written(h[i]).until
    && forall m :: i < m < |h| ==> !Frees(h[m], h[i])
  }

  lemma StateSnoc(h: seq<Event>, e: Event)
    ensures State(h + [e]) == After(State(h), e)
  {
    assert (h + [e])[..|h|] == h;
  }

  lemma TookBefore(h: seq<Event>, e: Event, i: nat)
    requires i < |h|
    ensures Took(h + [e], i) == Took(h, i)
  {
    assert (h + [e])[..i] == h[..i];
  }

  /** What stands is what Redis holds. */
  lemma {:induction false} StandingIsStored(h: seq<Event>, i: nat, now: int)
    requires InOrder(h) && i < |h| && Stands(h, i, now) && h[|h| - 1].at <= now
    ensures var k := SlotOf(h[i].cmd); k in State(h) && State(h)[k] == Written(h[i])
    decreases |h|
  {
    var init, e := h[..|h| - 1], h[|h| - 1];
    assert h == init + [e];
    if i == |h| - 1 {
      assert h[..i] == init;
    } else {
      TookBefore(init, e, i);
      assert Stands(init, i, now) by {
        forall m | i < m < |init| ensures !Frees(init[m], init[i]) { assert init[m] == h[m]; }
      }
      assert init[|init| - 1].at <= e.at;
      StandingIsStored(init, i, now);
      assert !Frees(h[|h| - 1], h[i]);
    }
  }

  /** What Redis holds alive stands. */
  lemma {:induction false} StoredIsStanding(h: seq<Event>, k: Slot, now: int) returns (i: nat)
    requires InOrder(h) && Live(State(h), k, now) && (h != [] ==> h[|h| - 1].at <= now)
    ensures i < |h| && Stands(h, i, now) && SlotOf(h[i].cmd) == k && State(h)[k] == Written(h[i])
    decreases |h|
  {
    var init, e := h[..|h| - 1], h[|h| - 1];
    assert h == init + [e];
    if SlotOf(e.cmd) == k && !e.cmd.Release? && e.outcome != Failed && Succeeds(State(init), e) {
      i := |h| - 1;
      assert h[..i] == init;
    } else {
      assert State(init) == State(h) || (SlotOf(e.cmd) != k && Live(State(init), k, now));
      i := StoredIsStanding(init, k, now);
      TookBefore(init, e, i);
      forall m | i < m < |h| ensures !Frees(h[m], h[i]) {
        if m < |init| { assert !Frees(init[m], init[i]); }
      }
    }
  }

  /** A marker or lock is taken exactly when nothing for its slot still stands. */
  lemma TakesIff(h: seq<Event>, e: Event)
    requires InOrder(h + [e]) && !e.cmd.Release?
    ensures Succeeds(State(h), e) <==>
              forall i :: 0 <= i < |h| && SlotOf(h[i].cmd) == SlotOf(e.cmd) ==> !Stands(h, i, e.at)
  {
    PrefixInOrder(h, e);
    var k := SlotOf(e.cmd);
    if Live(State(h), k, e.at) {
      var i := StoredIsStanding(h, k, e.at);
    }
    forall i | 0 <= i < |h| && SlotOf(h[i].cmd) == k && Stands(h, i, e.at) ensures Live(State(h), k, e.at) {
      StandingIsStored(h, i, e.at);
    }
  }

  lemma PrefixInOrder(h: seq<Event>, e: Event)
    requires InOrder(h + [e])
    ensures InOrder(h) && (h != [] ==> h[|h| - 1].at <= e.at)
  {
    forall i, j | 0 <= i < j < |h| ensures h[i].at <= h[j].at {
      assert (h + [e])[i].at <= (h + [e])[j].at;
    }
    if h != [] { assert (h + [e])[|h| - 1].at <= (h + [e])[|h|].at; }
  }

  // ---------------------------------------------------------------- the promises

  /** A later command for a slot finds the earlier one standing unless it is out of time or, for a
      lock, was released in between. */
  lemma TakersAreApart(h: seq<Event>, i: nat, j: nat)
    requires InOrder(h) && i < j < |h| && Took(h, i) && Took(h, j) && SlotOf(h[i].cmd) == SlotOf(h[j].cmd)
    ensures h[j].at >= Written(h[i]).until || exists m :: i < m < j && Frees(h[m], h[i])
  {
    var p := h[..j];
    assert h[..j + 1] == p + [h[j]];
    assert p[..i] == h[..i];
    assert InOrder(p + [h[j]]);
    TakesIff(p, h[j]);
    if h[j].at < Written(h[i]).until {
      assert Took(p, i);
      var m :| i < m < |p| && Frees(p[m], p[i]);
      assert Frees(h[m], h[i]);
    }
  }

  /** Two callers are told to process one payload only a full hour apart. */
  lemma ProcessedOncePerHour(h: seq<Event>, i: nat, j: nat, hash: string)
    requires InOrder(h) && i < j < |h| && h[i].cmd == CheckAndMark(hash) && h[j].cmd == CheckAndMark(hash)
    requires ReplyOf(State(h[..i]), h[i]) == Yes && ReplyOf(State(h[..j]), h[j]) == Yes
    ensures h[j].at >= h[i].at + 3600
  {
    TakersAreApart(h, i, j);
  }

  /** A caller whose call succeeds is told to process exactly when no marking of the payload in the
      hour before reached Redis. A marking whose answer was lost counts: nobody processed it then,
      and every retry within the hour is told to drop it. */
  lemma FirstIffUnmarked(h: seq<Event>, e: Event)
    requires InOrder(h + [e]) && e.cmd.CheckAndMark? && e.outcome == Ok
    ensures ReplyOf(State(h), e) == Yes <==>
              forall i :: 0 <= i < |h| && h[i].cmd == e.cmd && Took(h, i) ==> h[i].at + 3600 <= e.at
  {
    TakesIff(h, e);
    forall i | 0 <= i < |h| && SlotOf(h[i].cmd) == SlotOf(e.cmd)
      ensures Stands(h, i, e.at) <==> h[i].cmd == e.cmd && Took(h, i) && e.at < h[i].at + MARK_TTL
    {
    }
  }

  lemma LostMarkIsNeverProcessed(hash: string, t: int, retry: int)
    requires t <= retry < t + 3600
    ensures var h := [Event(t, CheckAndMark(hash), AckLost)];
            && ReplyOf(State([]), h[0]) == Threw
            && ReplyOf(State(h), Event(retry, CheckAndMark(hash), Ok)) == No
  {
    var e := Event(t, CheckAndMark(hash), AckLost);
    StateSnoc([], e);
    assert [] + [e] == [e];
  }

  /** Command `i` is an acquisition that still holds its lock at `now`. */
  ghost predicate Holds(h: seq<Event>, i: nat, now: int)
    requires i < |h|
  {
    h[i].cmd.Acquire? && Stands(h, i, now)
  }

  /** A lock is given exactly when every acquisition of it within the last minute has been released since,
      by a release that reached Redis and named its token. */
  lemma AcquiredIff(h: seq<Event>, e: Event)
    requires InOrder(h + [e]) && e.cmd.Acquire? && e.outcome == Ok
    ensures ReplyOf(State(h), e) == Yes <==>
              forall i :: 0 <= i < |h| && h[i].cmd.Acquire? && h[i].cmd.hash == e.cmd.hash && Took(h, i) && e.at < h[i].at + 60 ==>
                exists m :: i < m < |h| && h[m].cmd == Release(e.cmd.hash, h[i].cmd.token) && h[m].outcome != Failed
  {
    TakesIff(h, e);
    forall i | 0 <= i < |h|
      ensures SlotOf(h[i].cmd) == SlotOf(e.cmd) && Stands(h, i, e.at) <==>
                && h[i].cmd.Acquire? && h[i].cmd.hash == e.cmd.hash && Took(h, i) && e.at < h[i].at + 60
                && forall m :: i < m < |h| ==> !(h[m].cmd == Release(e.cmd.hash, h[i].cmd.token) && h[m].outcome != Failed)
    {
      if h[i].cmd.Acquire? && h[i].cmd.hash == e.cmd.hash {
        forall m | i < m < |h| ensures Frees(h[m], h[i]) <==> h[m].cmd == Release(e.cmd.hash, h[i].cmd.token) && h[m].outcome != Failed {}
      }
    }
  }

  /** Who learns nothing: everybody whose answer does not arrive, but for a claim, which is then granted. */
  lemma ThrewIff(h: seq<Event>, e: Event)
    ensures ReplyOf(State(h), e) == Threw <==> e.outcome != Ok && !e.cmd.TryClaim?
    ensures e.cmd.TryClaim? && e.outcome != Ok ==> ReplyOf(State(h), e) == Yes
  {
  }

  /** Mutual exclusion: at any instant at most one acquisition holds a lock. */
  lemma OneHolder(h: seq<Event>, i: nat, j: nat, now: int)
    requires InOrder(h) && i < |h| && j < |h| && h[|h| - 1].at <= now
    requires Holds(h, i, now) && Holds(h, j, now) && h[i].cmd.hash == h[j].cmd.hash
    ensures i == j
  {
    assert h[i].at <= now && h[j].at <= now;
    if i < j {
      TakersAreApart(h, i, j);
    } else if j < i {
      TakersAreApart(h, j, i);
    }
  }

  /** A release is confirmed exactly to the token of the current holder. */
  lemma ReleaseConfirmedIff(h: seq<Event>, e: Event)
    requires InOrder(h + [e]) && e.cmd.Release? && e.outcome == Ok
    ensures ReplyOf(State(h), e) == Yes <==>
              exists i :: 0 <= i < |h| && Holds(h, i, e.at) && h[i].cmd == Acquire(e.cmd.hash, e.cmd.token)
  {
    PrefixInOrder(h, e);
    var k := Lock(e.cmd.hash);
    if Live(State(h), k, e.at) {
      var i := StoredIsStanding(h, k, e.at);
      assert h[i].cmd == Acquire(e.cmd.hash, State(h)[k].value);
      if State(h)[k].value == e.cmd.token { assert Holds(h, i, e.at); }
    }
    forall i | 0 <= i < |h| && Holds(h, i, e.at) && h[i].cmd == Acquire(e.cmd.hash, e.cmd.token)
      ensures Live(State(h), k, e.at) && State(h)[k].value == e.cmd.token
    {
      StandingIsStored(h, i, e.at);
    }
  }

  /** A release with any other token, however late, leaves the holder its lock. */
  lemma LateReleaseIsHarmless(h: seq<Event>, i: nat, e: Event)
    requires InOrder(h + [e]) && i < |h| && Holds(h, i, e.at)
    requires e.cmd.Release? && e.cmd.token != h[i].cmd.token
    ensures Holds(h + [e], i, e.at)
    ensures var k := Lock(h[i].cmd.hash); k in State(h + [e]) && State(h + [e])[k] == Written(h[i])
  {
    PrefixInOrder(h, e);
    StandingIsStored(h, i, e.at);
    StateSnoc(h, e);
    TookBefore(h, e, i);
    assert Stands(h + [e], i, e.at) by {
      forall m | i < m < |h + [e]| ensures !Frees((h + [e])[m], (h + [e])[i]) {
        if m < |h| { assert !Frees(h[m], h[i]); }
      }
    }
  }

  /** Two claims of one journey for one contact and message. */
  predicate SameTrigger(a: Command, b: Command) {
    a.TryClaim? && b.TryClaim? && a.journey == b.journey && a.contact == b.contact && a.message == b.message
  }

  /** A trigger is granted exactly when Redis does not answer or no claim of the same journey, contact
      and message stands. */
  lemma GrantedIff(h: seq<Event>, e: Event)
    requires InOrder(h + [e]) && e.cmd.TryClaim?
    ensures ReplyOf(State(h), e) == Yes <==>
              || e.outcome != Ok
              || forall i :: 0 <= i < |h| && SameTrigger(h[i].cmd, e.cmd) && Took(h, i) ==> h[i].at + h[i].cmd.ttl <= e.at
  {
    TakesIff(h, e);
    forall i | 0 <= i < |h|
      ensures SlotOf(h[i].cmd) == SlotOf(e.cmd) <==> SameTrigger(h[i].cmd, e.cmd)
      ensures SameTrigger(h[i].cmd, e.cmd) ==> (Stands(h, i, e.at) <==> Took(h, i) && e.at < h[i].at + h[i].cmd.ttl)
    {
    }
  }

  /** With Redis up, one trigger is granted at most once per time-to-live. */
  lemma GrantedOncePerTtl(h: seq<Event>, i: nat, j: nat)
    requires InOrder(h) && i < j < |h| && SameTrigger(h[i].cmd, h[j].cmd)
    requires h[i].outcome == Ok && h[j].outcome == Ok
    requires ReplyOf(State(h[..i]), h[i]) == Yes && ReplyOf(State(h[..j]), h[j]) == Yes
    ensures h[j].at >= h[i].at + h[i].cmd.ttl
  {
    TakersAreApart(h, i, j);
  }

  // ---------------------------------------------------------------- names

  function Text(k: Slot): string
    requires !k.Claim?
  {
    (if k.Mark? then "event:idempotency:" else "event:lock:") + k.hash
  }

  /** Marks and locks never share a name, whatever the hashes. */
  lemma NamesAreDistinct(j: Slot, k: Slot)
    requires !j.Claim? && !k.Claim? && Text(j) == Text(k)
    ensures j == k
  {
    assert Text(j)[6] == Text(k)[6];
    var n := if j.Mark? then 18 else 11;
    assert Text(j)[n..] == j.hash && Text(k)[n..] == k.hash;
  }
}
