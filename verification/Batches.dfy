/** Cutting a campaign's audience into numbered batches and reading it back batch by batch. */
module Batches {
  import opened Prelude
  import opened CampaignContacts
  import opened ContactsClient

  /** The order in which both operations read the rows: by creation time, then by id. */
  predicate Before(rows: Table, r: RowId, q: RowId)
    requires r in rows && q in rows
  {
    rows[r].createdAt < rows[q].createdAt || (rows[r].createdAt == rows[q].createdAt && r < q)
  }

  ghost predicate Ordered(rows: Table, campaign: CampaignId, order: seq<RowId>) {
    && Fetches(rows, campaign, order)
    && forall i, j :: 0 <= i < j < |order| ==> Before(rows, order[i], order[j])
  }

  /** The number that row `i` is given. A remainder by zero is never zero in the source, so a batch
      size of zero puts everything into one batch; a negative size counts like its absolute value. */
  function BatchNumber(i: nat, batchSize: int): nat {
    var b := if batchSize < 0 then -batchSize else batchSize;
    if b == 0 then 1 else i / b + 1
  }

  function BatchCount(n: nat, batchSize: int): nat {
    if n == 0 then 1 else BatchNumber(n - 1, batchSize)
  }

  /** The table with the first `n` rows of the order numbered. */
  function Numbered(rows: Table, order: seq<RowId>, batchSize: int, n: nat): (after: Table)
    requires n <= |order| && forall r :: r in order ==> r in rows
    ensures after.Keys == rows.Keys
  {
    if n == 0 then rows
    else
      var before := Numbered(rows, order, batchSize, n - 1);
      before[order[n - 1] := before[order[n - 1]].(batch := Some(BatchNumber(n - 1, batchSize)))]
  }

  /** The table with the first `n` entities saved. */
  function Saved(rows: Table, order: seq<RowId>, contacts: seq<Row>, n: nat): Table
    requires n <= |order| == |contacts|
  {
    if n == 0 then rows else Saved(rows, order, contacts, n - 1)[order[n - 1] := contacts[n - 1]]
  }

  lemma {:induction false} SavedIsNumbered(rows: Table, order: seq<RowId>, batchSize: int, contacts: seq<Row>, n: nat)
    requires n <= |order| == |contacts| && Distinct(order) && forall r :: r in order ==> r in rows
    requires forall k :: 0 <= k < |order| ==> contacts[k] == rows[order[k]].(batch := Some(BatchNumber(k, batchSize)))
    ensures Saved(rows, order, contacts, n) == Numbered(rows, order, batchSize, n)
  {
    if n > 0 {
      SavedIsNumbered(rows, order, batchSize, contacts, n - 1);
      NumberedAt(rows, order, batchSize, n - 1, order[n - 1]);
    }
  }

  lemma Whole(i: nat, b: nat)
    requires b >= 1
    ensures i == (i / b) * b + i % b && i % b < b
  {
  }

  lemma Next(i: nat, b: nat)
    requires b >= 1
    ensures (i + 1) / b == i / b + if (i + 1) % b == 0 then 1 else 0
  {
    var q, r := i / b, i % b;
    Whole(i, b);
    if r + 1 == b {
      Distribute(q, 1, b);
      Divide(i + 1, q + 1, 0, b);
    } else {
      Divide(i + 1, q, r + 1, b);
    }
  }

  lemma Distribute(q: nat, d: nat, b: nat)
    ensures (q + d) * b == q * b + d * b
  {
  }

  lemma Divide(x: nat, q: nat, r: nat, b: nat)
    requires r < b && x == q * b + r
    ensures x / b == q && x % b == r
  {
    var q', r' := x / b, x % b;
    Whole(x, b);
    if q > q' { AtLeast(q, q', b); }
    if q < q' { AtLeast(q', q, b); }
  }

  lemma AtLeast(q: nat, p: nat, b: nat)
    requires q > p
    ensures q * b >= p * b + b
  {
    Grows(1, q - p, b);
    Distribute(p, q - p, b);
  }

  class AudienceBatches {
    const repository: Repository

    constructor (repository: Repository)
      ensures this.repository == repository
    {
      this.repository := repository;
    }

    /** The loop of `assignBatchSequences`, over the entities that were read. */
    method Number(contacts: array<Row>, batchSize: int) returns (batches: nat)
      modifies contacts
      ensures batches == BatchCount(contacts.Length, batchSize)
      ensures forall k :: 0 <= k < contacts.Length ==>
                contacts[k] == old(contacts[k]).(batch := Some(BatchNumber(k, batchSize)))
    {
      batches := 1;
      var b := if batchSize < 0 then -batchSize else batchSize;
      for i := 0 to contacts.Length
        invariant batches == if i == 0 then 1 else BatchNumber(i - 1, batchSize)
        invariant forall k :: 0 <= k < i ==> contacts[k] == old(contacts[k]).(batch := Some(BatchNumber(k, batchSize)))
        invariant forall k :: i <= k < contacts.Length ==> contacts[k] == old(contacts[k])
      {
        if i > 0 && b != 0 {
          Next(i - 1, b);
          if i % b == 0 { batches := batches + 1; }
        }
        contacts[i] := contacts[i].(batch := Some(batches));
      }
    }

    /** `assignBatchSequences`; no answer when a chunk cannot be saved, which leaves the rows of the
        chunks before it numbered. `saves` is how the chunks end. */
    method AssignBatchSequences(campaign: CampaignId, batchSize: int, order: seq<RowId>, saves: seq<Outcome>)
      returns (batches: Option<nat>)
      requires Ordered(repository.rows, campaign, order)
      modifies repository
      ensures batches == if WritesThrow(|order|, saves) then None else Some(BatchCount(|order|, batchSize))
      ensures repository.rows == Numbered(old(repository.rows), order, batchSize, WrittenCount(|order|, saves, 0))
      ensures batches.Some? ==> WrittenCount(|order|, saves, 0) == |order|
    {
      var contacts := Read(order);
      var count := Number(contacts, batchSize);
      SavedIsNumbered(repository.rows, order, batchSize, contacts[..], WrittenCount(|order|, saves, 0));
      var saved := SaveChunks(order, contacts[..], saves);
      batches := if saved then Some(count) else None;
    }

    method SaveChunks(order: seq<RowId>, contacts: seq<Row>, saves: seq<Outcome>) returns (ok: bool)
      requires |order| == |contacts|
      modifies repository
      ensures ok == !WritesThrow(|order|, saves)
      ensures repository.rows == Saved(old(repository.rows), order, contacts, WrittenCount(|order|, saves, 0))
      ensures ok ==> WrittenCount(|order|, saves, 0) == |order|
    {
      ghost var before := repository.rows;
      var i := 0;
      while i < |order|
        invariant 0 <= i <= |order| && (i % CHUNK == 0 || i == |order|)
        invariant repository.rows == Saved(before, order, contacts, i)
        invariant WrittenCount(|order|, saves, 0) == WrittenCount(|order|, saves, i)
        invariant forall k :: 0 <= k < |saves| && k * CHUNK < i ==> saves[k] == Ok
      {
        var to := Min(i + CHUNK, |order|);
        var o := if i / CHUNK < |saves| then saves[i / CHUNK] else Ok;
        if o != Failed { SaveChunk(before, order, contacts, i, to); }
        if o != Ok { return false; }
        i := to;
      }
      ok := true;
    }

    method Read(order: seq<RowId>) returns (contacts: array<Row>)
      requires forall r :: r in order ==> r in repository.rows
      ensures fresh(contacts) && contacts.Length == |order|
      ensures forall k :: 0 <= k < |order| ==> contacts[k] == repository.rows[order[k]]
    {
      contacts := new Row[|order|](_ => Row("", "", 0, None));
      for i := 0 to |order|
        invariant forall k :: 0 <= k < i ==> contacts[k] == repository.rows[order[k]]
      {
        contacts[i] := repository.rows[order[i]];
      }
    }

    method SaveChunk(ghost before: Table, order: seq<RowId>, contacts: seq<Row>, from: nat, to: nat)
      requires from <= to <= |order| == |contacts|
      requires repository.rows == Saved(before, order, contacts, from)
      modifies repository
      ensures repository.rows == Saved(before, order, contacts, to)
    {
      for k := from to to
        invariant repository.rows == Saved(before, order, contacts, k)
      {
        repository.rows := repository.rows[order[k] := contacts[k]];
      }
    }

    /** `getCampaignBatch`. The table answers with the rows of the batch, in order. A size of zero is no
        limit to the query, and a negative one is an error of the query. */
    method GetCampaignBatch(campaign: CampaignId, batchSequence: nat, batchSize: int, order: seq<RowId>)
      returns (batch: Option<seq<RowId>>)
      requires Ordered(repository.rows, campaign, order)
      ensures batch == if batchSize < 0 then None else Some(BatchOf(repository.rows, order, batchSequence, batchSize))
    {
      var all: seq<RowId> := [];
      for i := 0 to |order|
        invariant all == WithNumber(repository.rows, order[..i], batchSequence)
      {
        assert order[..i + 1][..i] == order[..i];
        if repository.rows[order[i]].batch == Some(batchSequence) { all := all + [order[i]]; }
      }
      assert order[..|order|] == order;
      batch := if batchSize < 0 then None
               else if 0 < batchSize < |all| then Some(all[..batchSize]) else Some(all);
    }
  }

  function WithNumber(rows: Table, order: seq<RowId>, number: nat): (r: seq<RowId>)
    ensures |r| <= |order|
    decreases |order|
  {
    if order == [] then []
    else
      var r := order[|order| - 1];
      WithNumber(rows, order[..|order| - 1], number)
      + if r in rows && rows[r].batch == Some(number) then [r] else []
  }

  function BatchOf(rows: Table, order: seq<RowId>, number: nat, batchSize: nat): seq<RowId> {
    var all := WithNumber(rows, order, number);
    if 0 < batchSize < |all| then all[..batchSize] else all
  }

  /** Numbering changes nothing but the numbers of the rows it has reached. */
  lemma {:induction false} NumberedAt(rows: Table, order: seq<RowId>, batchSize: int, n: nat, r: RowId)
    requires n <= |order| && Distinct(order) && (forall q :: q in order ==> q in rows) && r in rows
    ensures var after := Numbered(rows, order, batchSize, n);
            && after[r].(batch := None) == rows[r].(batch := None)
            && (r !in order[..n] ==> after[r] == rows[r])
            && (forall k :: 0 <= k < n && order[k] == r ==> after[r].batch == Some(BatchNumber(k, batchSize)))
  {
    if n > 0 {
      assert order[..n] == order[..n - 1] + [order[n - 1]];
      NumberedAt(rows, order, batchSize, n - 1, r);
      assert forall k :: 0 <= k < n - 1 ==> order[k] != order[n - 1];
    }
  }

  // ---------------------------------------------------------------- the batches rebuild the audience

  lemma Range(i: nat, number: nat, b: nat)
    requires b >= 1 && number >= 1
    ensures i / b + 1 == number <==> (number - 1) * b <= i < number * b
    ensures number * b == (number - 1) * b + b
  {
    var q := i / b;
    Whole(i, b);
    Distribute(number - 1, 1, b);
    Distribute(q, 1, b);
    if q + 1 < number {
      AtLeast(number - 1, q, b);
    } else if q + 1 > number {
      Grows(number, q, b);
    }
  }

  /** The rows with one number are one stretch of the order. */
  lemma {:induction false} StretchOf(rows: Table, order: seq<RowId>, b: nat, number: nat, i: nat)
    requires b >= 1 && number >= 1 && i <= |order| && forall q :: q in order ==> q in rows
    requires forall k :: 0 <= k < |order| ==> rows[order[k]].batch == Some(BatchNumber(k, b))
    ensures number * b == (number - 1) * b + b
    ensures WithNumber(rows, order[..i], number) == order[Min((number - 1) * b, i)..Min(number * b, i)]
  {
    Range(i, number, b);
    if i > 0 {
      StretchOf(rows, order, b, number, i - 1);
      Range(i - 1, number, b);
      assert order[..i][..i - 1] == order[..i - 1];
    }
  }

  lemma BatchIsStretch(rows: Table, order: seq<RowId>, b: nat, number: nat)
    requires b >= 1 && number >= 1 && forall q :: q in order ==> q in rows
    requires forall k :: 0 <= k < |order| ==> rows[order[k]].batch == Some(BatchNumber(k, b))
    ensures (number - 1) * b <= number * b
    ensures BatchOf(rows, order, number, b) == order[Min((number - 1) * b, |order|)..Min(number * b, |order|)]
  {
    StretchOf(rows, order, b, number, |order|);
    assert order[..|order|] == order;
  }

  function Concatenated(rows: Table, order: seq<RowId>, b: nat, n: nat): seq<RowId> {
    if n == 0 then [] else Concatenated(rows, order, b, n - 1) + BatchOf(rows, order, n, b)
  }

  lemma Join(order: seq<RowId>, from: nat, to: nat)
    requires from <= to <= |order|
    ensures order[..from] + order[from..to] == order[..to]
  {
  }

  lemma {:induction false} BatchesTile(rows: Table, order: seq<RowId>, b: nat, n: nat)
    requires b >= 1 && forall q :: q in order ==> q in rows
    requires forall k :: 0 <= k < |order| ==> rows[order[k]].batch == Some(BatchNumber(k, b))
    ensures Concatenated(rows, order, b, n) == order[..Min(n * b, |order|)]
  {
    if n > 0 {
      var from, to := Min((n - 1) * b, |order|), Min(n * b, |order|);
      assert Concatenated(rows, order, b, n - 1) == order[..from] by { BatchesTile(rows, order, b, n - 1); }
      assert from <= to && BatchOf(rows, order, n, b) == order[from..to] by { BatchIsStretch(rows, order, b, n); }
      Join(order, from, to);
    } else {
      assert n * b == 0;
    }
  }

  /** After numbering, reading the batches from the first to the last reported, each cut to the batch
      size, returns the whole audience in its order: nothing is lost, repeated or cut off. Row `k` has
      the number k / size + 1, and nothing else about any row has changed. */
  lemma BatchesRebuildTheAudience(rows: Table, campaign: CampaignId, order: seq<RowId>, b: nat)
    requires b >= 1 && Ordered(rows, campaign, order)
    ensures var after := Numbered(rows, order, b, |order|);
            && Ordered(after, campaign, order)
            && Concatenated(after, order, b, BatchCount(|order|, b)) == order
            && (forall k :: 0 <= k < |order| ==> after[order[k]].batch == Some(k / b + 1))
            && (forall r :: r in rows ==> after[r].(batch := None) == rows[r].(batch := None))
            && (forall r :: r in rows && rows[r].campaign != campaign ==> after[r] == rows[r])
  {
    var after := Numbered(rows, order, b, |order|);
    NumberingKeeps(rows, order, b);
    NumberedIsOrdered(rows, campaign, order, after);
    BatchesTile(after, order, b, BatchCount(|order|, b));
    CountCovers(|order|, b);
  }

  lemma {:induction false} WithNumberIs(rows: Table, order: seq<RowId>, number: nat)
    ensures forall r :: r in WithNumber(rows, order, number) <==> r in order && r in rows && rows[r].batch == Some(number)
    decreases |order|
  {
    if order != [] {
      WithNumberIs(rows, order[..|order| - 1], number);
      assert order == order[..|order| - 1] + [order[|order| - 1]];
    }
  }

  /** Reading a batch, whatever size it was numbered with: its rows, and of these no more than the size
      that is asked for, the first ones; a size of zero asks for all. */
  lemma BatchesAreCut(rows: Table, order: seq<RowId>, number: nat, size: nat)
    ensures var batch, all := BatchOf(rows, order, number, size), WithNumber(rows, order, number);
            && (forall r :: r in all <==> r in order && r in rows && rows[r].batch == Some(number))
            && batch <= all
            && |batch| == if size == 0 || |all| < size then |all| else size
  {
    WithNumberIs(rows, order, number);
  }

  /** A batch size of zero makes one batch of everything, and reading it back is not limited. A negative
      size numbers like its absolute value. */
  lemma OddBatchSizes(i: nat, b: int)
    requires b > 0
    ensures BatchNumber(i, 0) == 1 && BatchCount(i, 0) == 1
    ensures BatchNumber(i, -b) == i / b + 1
  {
  }

  lemma {:induction false} AllNumberedOne(rows: Table, order: seq<RowId>)
    requires forall r :: r in order ==> r in rows && rows[r].batch == Some(1)
    ensures WithNumber(rows, order, 1) == order
    decreases |order|
  {
    if order != [] {
      AllNumberedOne(rows, order[..|order| - 1]);
      assert order == order[..|order| - 1] + [order[|order| - 1]];
    }
  }

  lemma SizeZeroIsOneBatch(rows: Table, campaign: CampaignId, order: seq<RowId>)
    requires Ordered(rows, campaign, order)
    ensures BatchOf(Numbered(rows, order, 0, |order|), order, 1, 0) == order
  {
    var after := Numbered(rows, order, 0, |order|);
    forall r | r in order ensures after[r].batch == Some(1) {
      var k :| 0 <= k < |order| && order[k] == r;
      NumberedAt(rows, order, 0, |order|, r);
      OddBatchSizes(k, 1);
    }
    AllNumberedOne(after, order);
  }

  lemma NumberedIsOrdered(rows: Table, campaign: CampaignId, order: seq<RowId>, after: Table)
    requires Ordered(rows, campaign, order) && after.Keys == rows.Keys
    requires forall r :: r in rows ==> after[r].createdAt == rows[r].createdAt && after[r].campaign == rows[r].campaign
    ensures Ordered(after, campaign, order)
  {
  }

  lemma NumberingKeeps(rows: Table, order: seq<RowId>, b: nat)
    requires b >= 1 && Distinct(order) && forall r :: r in order ==> r in rows
    ensures var after := Numbered(rows, order, b, |order|);
            && (forall r :: r in rows ==>
                  && after[r].(batch := None) == rows[r].(batch := None)
                  && after[r].createdAt == rows[r].createdAt && after[r].campaign == rows[r].campaign
                  && (r !in order ==> after[r] == rows[r]))
            && (forall k :: 0 <= k < |order| ==>
                  after[order[k]].batch == Some(BatchNumber(k, b)) && BatchNumber(k, b) == k / b + 1)
  {
    var after := Numbered(rows, order, b, |order|);
    assert order[..|order|] == order;
    forall r | r in rows
      ensures after[r].(batch := None) == rows[r].(batch := None)
      ensures after[r].createdAt == rows[r].createdAt && after[r].campaign == rows[r].campaign
      ensures r !in order ==> after[r] == rows[r]
    {
      NumberedAt(rows, order, b, |order|, r);
      assert after[r].(batch := None).createdAt == rows[r].(batch := None).createdAt;
      assert after[r].(batch := None).campaign == rows[r].(batch := None).campaign;
    }
    forall k | 0 <= k < |order| ensures after[order[k]].batch == Some(BatchNumber(k, b)) {
      NumberedAt(rows, order, b, |order|, order[k]);
    }
  }

  lemma CountCovers(n: nat, b: nat)
    requires b >= 1
    ensures BatchCount(n, b) * b >= n
    ensures n > 0 ==> BatchCount(n, b) == (n + b - 1) / b
  {
    if n > 0 {
      Range(n - 1, BatchCount(n, b), b);
      Range(n + b - 1, BatchCount(n, b) + 1, b);
    }
  }
}
