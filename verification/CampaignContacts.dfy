/** The table of campaign contacts that the audience services share. */
module CampaignContacts {
  import opened Prelude
  import opened ContactsClient

  type RowId = nat

  /** A row of the table of campaign contacts. Nothing keeps a contact from having several. */
  datatype Row = Row(campaign: CampaignId, contact: Id, createdAt: int, batch: Option<nat>)

  type Table = map<RowId, Row>

  /** `order` is some order in which the table returns the campaign's rows. */
  ghost predicate Fetches(rows: Table, campaign: CampaignId, order: seq<RowId>) {
    Distinct(order) && forall r :: r in order <==> r in rows && rows[r].campaign == campaign
  }

  function ContactIds(rows: Table, order: seq<RowId>): (ids: seq<Id>)
    requires forall r :: r in order ==> r in rows
    ensures |ids| == |order| && forall i :: 0 <= i < |order| ==> ids[i] == rows[order[i]].contact
    decreases |order|
  {
    if order == [] then [] else ContactIds(rows, order[..|order| - 1]) + [rows[order[|order| - 1]].contact]
  }

  /** Both services write in chunks, and stop at the first chunk that throws. */
  const CHUNK := 1000

  /** How many of `n` items are written, beginning at `from`, when the chunks end like this. */
  function WrittenCount(n: nat, chunks: seq<Outcome>, from: nat): (r: nat)
    requires from <= n
    ensures from <= r <= n
    decreases n - from
  {
    if from == n then n
    else
      var to, k := Min(from + CHUNK, n), from / CHUNK;
      var o := if k < |chunks| then chunks[k] else Ok;
      if o == Ok then WrittenCount(n, chunks, to) else if o == AckLost then to else from
  }

  predicate WritesThrow(n: nat, chunks: seq<Outcome>) {
    exists k :: 0 <= k < |chunks| && k * CHUNK < n && chunks[k] != Ok
  }

  lemma {:induction false} WrittenFrom(n: nat, chunks: seq<Outcome>, k: nat, from: nat)
    requires from <= k && k * CHUNK < n && k < |chunks| && forall j :: from <= j < k ==> chunks[j] == Ok
    ensures WrittenCount(n, chunks, from * CHUNK) == WrittenCount(n, chunks, k * CHUNK)
    decreases k - from
  {
    if from < k {
      assert (from * CHUNK) / CHUNK == from;
      WrittenFrom(n, chunks, k, from + 1);
    }
  }

  /** Items are written a thousand at a time. If the `k`-th chunk is the first to throw, the chunks before
      it are written, and it as well if only its acknowledgement was lost. */
  lemma WrittenUpToTheFailure(n: nat, chunks: seq<Outcome>, k: nat)
    requires k < |chunks| && k * 1000 < n && chunks[k] != Ok && forall j :: 0 <= j < k ==> chunks[j] == Ok
    ensures WrittenCount(n, chunks, 0) == if chunks[k] == Failed then k * 1000 else Min(k * 1000 + 1000, n)
    ensures WritesThrow(n, chunks)
  {
    WrittenFrom(n, chunks, k, 0);
    assert (k * CHUNK) / CHUNK == k;
    assert k * CHUNK < n && chunks[k] != Ok;
  }

  lemma {:induction false} NothingThrows(n: nat, chunks: seq<Outcome>, from: nat)
    requires from <= n && (from % CHUNK == 0 || from == n) && forall k :: 0 <= k < |chunks| && k * 1000 < n ==> chunks[k] == Ok
    ensures WrittenCount(n, chunks, from) == n && !WritesThrow(n, chunks)
    decreases n - from
  {
    if from < n {
      assert (from / CHUNK) * 1000 == from;
      NothingThrows(n, chunks, Min(from + CHUNK, n));
    }
  }

  class Repository {
    var rows: Table
    constructor () ensures rows == map[] { rows := map[]; }
  }
}
