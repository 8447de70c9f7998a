/** Filling a campaign's audience and cutting it into batches: `AudienceComputationService`. */
module AudienceComputation {
  import opened Prelude
  import opened ContactsClient
  import opened CampaignContacts

  /** The candidates to be stored: reachable, each once, in the order the contacts arrive. */
  function Chosen(crm: Crm, channel: Channel, ids: seq<Id>): (r: seq<Id>)
    ensures |r| <= |ids|
    ensures forall x :: x in r <==> x in ids && Reachable(crm, channel, x)
    ensures Distinct(ids) ==> Distinct(r)
    decreases |ids|
  {
    if ids == [] then []
    else
      var init, x := Chosen(crm, channel, ids[..|ids| - 1]), ids[|ids| - 1];
      assert forall y :: y in ids <==> y in ids[..|ids| - 1] || y == x;
      if Reachable(crm, channel, x) then init + [x] else init
  }

  /** What the table and the clock give to an insert: ids for the new rows, and a time per chunk. */
  datatype Supply = Supply(ids: seq<RowId>, time: nat -> int)

  ghost predicate Fresh(rows: Table, supply: Supply, n: nat) {
    n <= |supply.ids| && Distinct(supply.ids) && forall r :: r in supply.ids ==> r !in rows
  }

  /** The table with the first `n` of the contacts stored. */
  function Stored(rows: Table, campaign: CampaignId, contacts: seq<Id>, supply: Supply, n: nat): Table
    requires n <= |contacts| && n <= |supply.ids|
  {
    if n == 0 then rows
    else Stored(rows, campaign, contacts, supply, n - 1)[
           supply.ids[n - 1] := Row(campaign, contacts[n - 1], supply.time((n - 1) / CHUNK), None)]
  }

  function Cleared(rows: Table, campaign: CampaignId): Table {
    map r | r in rows && rows[r].campaign != campaign :: rows[r]
  }

  /** What the search finds. The SQL strategy takes the total from a query of its own, so it need not be
      the number of ids. */
  datatype Candidates = Candidates(ids: seq<Id>, total: nat)

  /** How the awaited calls of a computation end: the delete, the search for candidates, and each
      chunk's insert. */
  datatype Calls = Calls(delete: Outcome, candidates: Option<Candidates>, inserts: seq<Outcome>)

  datatype Report = Report(totalContacts: nat, validContacts: nat, invalidContacts: nat)

  class AudienceComputationService {
    const repository: Repository

    constructor (repository: Repository)
      ensures this.repository == repository
    {
      this.repository := repository;
    }

    /** `clearAudience`; false when it throws. */
    method ClearAudience(campaign: CampaignId, o: Outcome) returns (ok: bool)
      modifies repository
      ensures ok == (o == Ok)
      ensures repository.rows == if o == Failed then old(repository.rows) else Cleared(old(repository.rows), campaign)
    {
      if o != Failed {
        repository.rows := map r | r in repository.rows && repository.rows[r].campaign != campaign :: repository.rows[r];
      }
      ok := o == Ok;
    }

    /** `computeAudience`; no answer when it throws. Clearing comes first, so a search or an insert
        that fails leaves the audience empty or partly filled. */
    method ComputeAudience(crm: Crm, campaign: CampaignId, channel: Option<Channel>, calls: Calls, supply: Supply)
      returns (report: Option<Report>)
      requires Fresh(repository.rows, supply, if calls.candidates.Some? then |calls.candidates.value.ids| else 0)
      modifies repository
      ensures channel.None? || calls.delete == Failed ==> report.None? && repository.rows == old(repository.rows)
      ensures channel.Some? && (calls.delete == AckLost || (calls.delete == Ok && calls.candidates.None?)) ==>
                report.None? && repository.rows == Cleared(old(repository.rows), campaign)
      ensures channel.Some? && calls.delete == Ok && calls.candidates.Some? ==>
                var ids := calls.candidates.value.ids;
                var chosen := Chosen(crm, channel.value, Unique(ids));
                var n := WrittenCount(|chosen|, calls.inserts, 0);
                && repository.rows == Stored(Cleared(old(repository.rows), campaign), campaign, chosen, supply, n)
                && (report.Some? <==> !WritesThrow(|chosen|, calls.inserts))
                && (report.Some? ==> n == |chosen| && report.value == Report(calls.candidates.value.total, n, |ids| - n))
    {
      if channel.None? { return None; }
      var cleared := ClearAudience(campaign, calls.delete);
      if !cleared { return None; }
      if calls.candidates.None? { return None; }
      var ids := calls.candidates.value.ids;
      var valid, invalid := Populate(crm, campaign, channel.value, ids, calls.inserts, supply);
      report := if valid.None? then None else Some(Report(calls.candidates.value.total, valid.value, invalid));
    }

    method Populate(crm: Crm, campaign: CampaignId, channel: Channel, ids: seq<Id>, inserts: seq<Outcome>, supply: Supply)
      returns (valid: Option<nat>, invalid: nat)
      requires Fresh(repository.rows, supply, |ids|)
      modifies repository
      ensures var chosen := Chosen(crm, channel, Unique(ids));
              var n := WrittenCount(|chosen|, inserts, 0);
              && repository.rows == Stored(old(repository.rows), campaign, chosen, supply, n)
              && (valid.Some? <==> !WritesThrow(|chosen|, inserts))
              && (valid.Some? ==> n == |chosen| && valid.value == n && invalid == |ids| - n)
    {
      if |ids| == 0 { return Some(0), 0; }
      var contacts := FindByIds(crm, ids);
      var toInsert, bad := Check(channel, contacts);
      ChosenFromPresent(crm, channel, Unique(ids));
      bad := bad + (|ids| - |contacts|);
      var done := InsertChunks(campaign, toInsert, inserts, supply);
      if !done { return None, 0; }
      valid, invalid := Some(|toInsert|), bad;
    }

    method Check(channel: Channel, contacts: seq<Contact>) returns (toInsert: seq<Id>, invalid: nat)
      ensures toInsert == ChosenOf(channel, contacts) && |toInsert| + invalid == |contacts|
    {
      toInsert, invalid := [], 0;
      for i := 0 to |contacts|
        invariant toInsert == ChosenOf(channel, contacts[..i]) && |toInsert| + invalid == i
      {
        assert contacts[..i + 1][..i] == contacts[..i];
        if ValidateContactForChannel(contacts[i], channel).None? {
          toInsert := toInsert + [contacts[i].id];
        } else {
          invalid := invalid + 1;
        }
      }
      assert contacts[..|contacts|] == contacts;
    }

    /** The chunked inserts; false when one throws. */
    method InsertChunks(campaign: CampaignId, contacts: seq<Id>, inserts: seq<Outcome>, supply: Supply) returns (ok: bool)
      requires |contacts| <= |supply.ids|
      modifies repository
      ensures var n := WrittenCount(|contacts|, inserts, 0);
              && repository.rows == Stored(old(repository.rows), campaign, contacts, supply, n)
              && (ok <==> !WritesThrow(|contacts|, inserts))
              && (ok ==> n == |contacts|)
    {
      var i := 0;
      while i < |contacts|
        invariant 0 <= i <= |contacts|
        invariant repository.rows == Stored(old(repository.rows), campaign, contacts, supply, i)
        invariant WrittenCount(|contacts|, inserts, 0) == WrittenCount(|contacts|, inserts, i)
        invariant i % CHUNK == 0 || i == |contacts|
        invariant forall k :: 0 <= k < |inserts| && k * CHUNK < i ==> inserts[k] == Ok
      {
        var to := Min(i + CHUNK, |contacts|);
        var o := if i / CHUNK < |inserts| then inserts[i / CHUNK] else Ok;
        if o != Failed { InsertChunk(old(repository.rows), campaign, contacts, supply, i, to); }
        if o != Ok { return false; }
        i := to;
      }
      ok := true;
    }

    method InsertChunk(ghost before: Table, campaign: CampaignId, contacts: seq<Id>, supply: Supply, from: nat, to: nat)
      requires from <= to <= |contacts| <= |supply.ids| && to <= from + CHUNK && from % CHUNK == 0
      requires repository.rows == Stored(before, campaign, contacts, supply, from)
      modifies repository
      ensures repository.rows == Stored(before, campaign, contacts, supply, to)
    {
      for k := from to to
        invariant repository.rows == Stored(before, campaign, contacts, supply, k)
      {
        assert k / CHUNK == from / CHUNK;
        repository.rows := repository.rows[supply.ids[k] := Row(campaign, contacts[k], supply.time(from / CHUNK), None)];
      }
    }
  }

  function ChosenOf(channel: Channel, contacts: seq<Contact>): seq<Id>
    decreases |contacts|
  {
    if contacts == [] then []
    else
      var c := contacts[|contacts| - 1];
      ChosenOf(channel, contacts[..|contacts| - 1])
      + if ValidateContactForChannel(c, channel).None? then [c.id] else []
  }

  lemma {:induction false} ChosenFromPresent(crm: Crm, channel: Channel, ids: seq<Id>)
    ensures ChosenOf(channel, Present(crm, ids)) == Chosen(crm, channel, ids)
    decreases |ids|
  {
    if ids != [] {
      var init, x := ids[..|ids| - 1], ids[|ids| - 1];
      ChosenFromPresent(crm, channel, init);
      if x in crm {
        var p := Present(crm, init);
        assert (p + [crm[x]])[..|p|] == p;
      }
    }
  }

  /** The chosen come in the order of the candidates. */
  lemma {:induction false} ChosenInOrder(crm: Crm, channel: Channel, ids: seq<Id>, i: nat, j: nat) returns (a: nat, b: nat)
    requires i < j < |Chosen(crm, channel, ids)|
    ensures a < b < |ids| && ids[a] == Chosen(crm, channel, ids)[i] && ids[b] == Chosen(crm, channel, ids)[j]
    decreases |ids|
  {
    var init := ids[..|ids| - 1];
    var chosen := Chosen(crm, channel, init);
    if j < |chosen| {
      a, b := ChosenInOrder(crm, channel, init, i, j);
    } else {
      assert chosen[i] in chosen;
      a :| 0 <= a < |init| && init[a] == chosen[i];
      b := |ids| - 1;
    }
  }

  // ---------------------------------------------------------------- what the table holds afterwards

  function Audience(rows: Table, campaign: CampaignId): set<Id> {
    set r | r in rows && rows[r].campaign == campaign :: rows[r].contact
  }

  ghost predicate OneRowEach(rows: Table, campaign: CampaignId) {
    forall r, q :: r in rows && q in rows && rows[r].campaign == rows[q].campaign == campaign && r != q ==>
                     rows[r].contact != rows[q].contact
  }

  ghost predicate SameElsewhere(before: Table, after: Table, campaign: CampaignId) {
    && (forall r :: r in before && before[r].campaign != campaign ==> r in after && after[r] == before[r])
    && (forall r :: r in after && after[r].campaign != campaign ==> r in before && after[r] == before[r])
  }

  /** The rows that the inserts add, and those that they leave. */
  lemma {:induction false} StoredAt(rows: Table, campaign: CampaignId, contacts: seq<Id>, supply: Supply, n: nat, r: RowId)
    requires n <= |contacts| && Fresh(rows, supply, |contacts|)
    ensures var after := Stored(rows, campaign, contacts, supply, n);
            && (r in rows ==> r in after && after[r] == rows[r])
            && (r in after && r !in rows ==> exists k :: 0 <= k < n && supply.ids[k] == r)
            && (forall k :: 0 <= k < n && supply.ids[k] == r ==>
                  r in after && after[r] == Row(campaign, contacts[k], supply.time(k / CHUNK), None))
  {
    if n > 0 {
      StoredAt(rows, campaign, contacts, supply, n - 1, r);
      assert supply.ids[n - 1] in supply.ids;
    }
  }

  /** The campaign's rows are the first `n` of the ids, the k-th for the k-th contact, in no batch yet; the
      rows of one chunk of a thousand are created at one time. */
  ghost predicate ListedRows(after: Table, campaign: CampaignId, contacts: seq<Id>, supply: Supply, n: nat)
    requires n <= |contacts| && n <= |supply.ids|
  {
    && (forall r :: r in after && after[r].campaign == campaign ==> exists k :: 0 <= k < n && supply.ids[k] == r)
    && (forall k :: 0 <= k < n ==>
          var r := supply.ids[k];
          && r in after && after[r].campaign == campaign && after[r].contact == contacts[k]
          && after[r].batch == None && after[r].createdAt == supply.time(k / 1000))
  }

  lemma ListedAudience(after: Table, campaign: CampaignId, contacts: seq<Id>, supply: Supply, n: nat)
    requires n <= |contacts| && n <= |supply.ids| && Distinct(contacts) && ListedRows(after, campaign, contacts, supply, n)
    ensures forall id :: id in Audience(after, campaign) <==> id in contacts[..n]
    ensures OneRowEach(after, campaign)
  {
    forall id | id in contacts[..n] ensures id in Audience(after, campaign) {
      var k :| 0 <= k < n && contacts[..n][k] == id;
      assert after[supply.ids[k]].contact == id;
    }
  }

  /** The first `n` contacts, one row each; every other campaign as it was. */
  lemma StoredHolds(rows: Table, campaign: CampaignId, contacts: seq<Id>, supply: Supply, n: nat)
    requires n <= |contacts| && Fresh(rows, supply, |contacts|)
    ensures var after := Stored(Cleared(rows, campaign), campaign, contacts, supply, n);
            SameElsewhere(rows, after, campaign) && ListedRows(after, campaign, contacts, supply, n)
  {
    var cleared := Cleared(rows, campaign);
    var after := Stored(cleared, campaign, contacts, supply, n);
    forall r
      ensures r in cleared ==> r in after && after[r] == cleared[r]
      ensures r in after && r !in cleared ==> exists k :: 0 <= k < n && supply.ids[k] == r
      ensures forall k :: 0 <= k < n && supply.ids[k] == r ==>
                r in after && after[r] == Row(campaign, contacts[k], supply.time(k / CHUNK), None)
    {
      StoredAt(cleared, campaign, contacts, supply, n, r);
    }
  }

  /** However far the inserts get, the audience is that many of the chosen contacts, each in one row. */
  lemma AudienceIsAPrefix(rows: Table, campaign: CampaignId, contacts: seq<Id>, supply: Supply, n: nat)
    requires n <= |contacts| && Distinct(contacts) && Fresh(rows, supply, |contacts|)
    ensures var after := Stored(Cleared(rows, campaign), campaign, contacts, supply, n);
            && (forall id :: id in Audience(after, campaign) <==> id in contacts[..n])
            && ListedRows(after, campaign, contacts, supply, n)
            && OneRowEach(after, campaign) && SameElsewhere(rows, after, campaign)
  {
    var after := Stored(Cleared(rows, campaign), campaign, contacts, supply, n);
    assert SameElsewhere(rows, after, campaign) && ListedRows(after, campaign, contacts, supply, n) by {
      StoredHolds(rows, campaign, contacts, supply, n);
    }
    ListedAudience(after, campaign, contacts, supply, n);
  }

  /** A computation that succeeds leaves exactly the reachable candidates, whatever the table held
      before: repeating it on the same candidates, even after a run that broke off, gives the same
      audience. No duplicate or vanished candidate escapes the two counts of its report. */
  lemma ComputingIsRepeatable(rows: Table, rows': Table, campaign: CampaignId, crm: Crm, channel: Channel, ids: seq<Id>, supply: Supply, supply': Supply)
    requires Fresh(rows, supply, |ids|) && Fresh(rows', supply', |ids|)
    ensures var chosen := Chosen(crm, channel, Unique(ids));
            var first := Stored(Cleared(rows, campaign), campaign, chosen, supply, |chosen|);
            var second := Stored(Cleared(rows', campaign), campaign, chosen, supply', |chosen|);
            && (forall id :: id in Audience(first, campaign) <==> id in ids && Reachable(crm, channel, id))
            && Audience(first, campaign) == Audience(second, campaign)
            && OneRowEach(first, campaign) && OneRowEach(second, campaign)
            && SameElsewhere(rows, first, campaign) && SameElsewhere(rows', second, campaign)
            && |chosen| <= |ids|
  {
    var chosen := Chosen(crm, channel, Unique(ids));
    AudienceIsAPrefix(rows, campaign, chosen, supply, |chosen|);
    AudienceIsAPrefix(rows', campaign, chosen, supply', |chosen|);
    assert chosen[..|chosen|] == chosen;
    assert forall id :: id in chosen <==> id in ids && Reachable(crm, channel, id);
  }
}
