/** Reading contacts from the CRM: `ContactsClientService` and the checks that `HydratedContact`s go
    through before a message is sent to them. */
module ContactsClient {
  import opened Prelude

  type Id = string

  /** An empty text stands for a field that is empty or absent; the source treats them alike. */
  datatype Contact = Contact(id: Id, email: string, phoneNumber: string, blocked: bool)

  /** The contacts that the CRM returns when asked for them one by one. A request that fails counts as
      a contact that does not exist. */
  type Crm = crm: map<Id, Contact> | forall id :: id in crm ==> crm[id].id == id

  // ---------------------------------------------------------------- findByIds

  /** The distinct ids, each where it first occurs. */
  function Unique(ids: seq<Id>): (r: seq<Id>)
    ensures forall x :: x in r <==> x in ids
    ensures Distinct(r) && |r| <= |ids|
    decreases |ids|
  {
    if ids == [] then []
    else
      var init, x := Unique(ids[..|ids| - 1]), ids[|ids| - 1];
      assert forall y :: y in ids <==> y in ids[..|ids| - 1] || y == x;
      if x in init then init else init + [x]
  }

  /** The contacts among the ids that the CRM knows, in order. */
  function Present(crm: Crm, ids: seq<Id>): (r: seq<Contact>)
    ensures |r| <= |ids|
    ensures forall c :: c in r <==> c.id in ids && c.id in crm && crm[c.id] == c
    decreases |ids|
  {
    if ids == [] then []
    else
      var init, x := Present(crm, ids[..|ids| - 1]), ids[|ids| - 1];
      assert forall y :: y in ids <==> y in ids[..|ids| - 1] || y == x;
      if x in crm then init + [crm[x]] else init
  }

  /** Each contact once: their ids do not repeat. */
  lemma {:induction false} PresentDistinct(crm: Crm, ids: seq<Id>)
    requires Distinct(ids)
    ensures forall i, j :: 0 <= i < j < |Present(crm, ids)| ==> Present(crm, ids)[i].id != Present(crm, ids)[j].id
    decreases |ids|
  {
    if ids != [] {
      var init, x := ids[..|ids| - 1], ids[|ids| - 1];
      PresentDistinct(crm, init);
      var p := Present(crm, init);
      forall i | 0 <= i < |p| ensures p[i].id != x { assert p[i] in p; }
    }
  }

  /** `i` is where the id first occurs. */
  predicate FirstAt(ids: seq<Id>, i: nat, x: Id) { i < |ids| && ids[i] == x && x !in ids[..i] }

  lemma FirstInPrefix(ids: seq<Id>, a: nat, x: Id)
    requires ids != [] && FirstAt(ids, a, x)
    ensures if x in ids[..|ids| - 1] then FirstAt(ids[..|ids| - 1], a, x) else a == |ids| - 1
  {
    var init := ids[..|ids| - 1];
    assert forall i :: 0 <= i < |init| ==> init[i] == ids[i];
    if a < |init| {
      assert init[..a] == ids[..a] && init[a] == x;
    }
  }

  /** Of the distinct ids, one comes before another if it first occurs before it. */
  lemma {:induction false} UniqueInOrder(ids: seq<Id>, i: nat, j: nat, a: nat, b: nat)
    requires i < j < |Unique(ids)| && FirstAt(ids, a, Unique(ids)[i]) && FirstAt(ids, b, Unique(ids)[j])
    ensures a < b
    decreases |ids|
  {
    var init := ids[..|ids| - 1];
    var u := Unique(init);
    assert Unique(ids)[i] == u[i] && u[i] in u;
    FirstInPrefix(ids, a, u[i]);
    FirstInPrefix(ids, b, Unique(ids)[j]);
    if j < |u| {
      assert u[j] in u;
      UniqueInOrder(init, i, j, a, b);
    }
  }

  /** The contacts that are there come in the order of their ids. */
  lemma {:induction false} PresentInOrder(crm: Crm, ids: seq<Id>, i: nat, j: nat) returns (a: nat, b: nat)
    requires i < j < |Present(crm, ids)|
    ensures a < b < |ids| && ids[a] == Present(crm, ids)[i].id && ids[b] == Present(crm, ids)[j].id
    decreases |ids|
  {
    var init := ids[..|ids| - 1];
    if j < |Present(crm, init)| {
      a, b := PresentInOrder(crm, init, i, j);
    } else {
      assert Present(crm, init)[i] in Present(crm, init);
      a :| 0 <= a < |init| && init[a] == Present(crm, init)[i].id;
      b := |ids| - 1;
    }
  }

  /** `findByIds` returns the contacts that exist, each once, in the order in which the request first names
      them. */
  lemma FoundInOrder(crm: Crm, ids: seq<Id>, i: nat, j: nat, a: nat, b: nat)
    requires var found := Present(crm, Unique(ids));
             i < j < |found| && FirstAt(ids, a, found[i].id) && FirstAt(ids, b, found[j].id)
    ensures a < b
  {
    var m, n := PresentInOrder(crm, Unique(ids), i, j);
    UniqueInOrder(ids, m, n, a, b);
  }

  const CONCURRENCY := 10

  method FindByIds(crm: Crm, ids: seq<Id>) returns (results: seq<Contact>)
    ensures results == Present(crm, Unique(ids))
  {
    if |ids| == 0 { return []; }
    var uniqueIds := Unique(ids);
    results := [];
    var i := 0;
    while i < |uniqueIds|
      invariant 0 <= i <= |uniqueIds|
      invariant results == Present(crm, uniqueIds[..i])
    {
      var next := if i + CONCURRENCY < |uniqueIds| then i + CONCURRENCY else |uniqueIds|;
      results := FindChunk(crm, uniqueIds, i, next, results);
      i := next;
    }
    assert uniqueIds[..|uniqueIds|] == uniqueIds;
  }

  method FindChunk(crm: Crm, ids: seq<Id>, from: nat, to: nat, found: seq<Contact>) returns (results: seq<Contact>)
    requires from <= to <= |ids| && found == Present(crm, ids[..from])
    ensures results == Present(crm, ids[..to])
  {
    results := found;
    for k := from to to
      invariant results == Present(crm, ids[..k])
    {
      PresentSnoc(crm, ids, k);
      if ids[k] in crm { results := results + [crm[ids[k]]]; }
    }
  }

  lemma PresentSnoc(crm: Crm, ids: seq<Id>, k: nat)
    requires k < |ids|
    ensures Present(crm, ids[..k + 1]) == Present(crm, ids[..k]) + if ids[k] in crm then [crm[ids[k]]] else []
  {
    assert ids[..k + 1][..k] == ids[..k];
  }

  // ---------------------------------------------------------------- listAllIds

  /** An entry of the CRM's contact list: its id is text, a number, or neither. */
  datatype Record = Text(id: Id, blocked: bool) | Number(n: nat, blocked: bool) | Malformed

  datatype Listed = Listed(id: Id, blocked: bool)

  function Decimal(n: nat): string {
    if n < 10 then ["0123456789"[n]] else Decimal(n / 10) + ["0123456789"[n % 10]]
  }

  function Digit(c: char): nat { if '0' <= c <= '9' then c as nat - '0' as nat else 0 }

  function ReadDecimal(s: string): nat
    decreases |s|
  {
    if s == "" then 0 else ReadDecimal(s[..|s| - 1]) * 10 + Digit(s[|s| - 1])
  }

  /** The text of a number reads as the number, and has no leading zero. */
  lemma {:induction false} DecimalReads(n: nat)
    ensures ReadDecimal(Decimal(n)) == n && Decimal(n) != "" && (n > 0 ==> Decimal(n)[0] != '0')
    ensures forall i :: 0 <= i < |Decimal(n)| ==> '0' <= Decimal(n)[i] <= '9'
  {
    var s := Decimal(n);
    if n >= 10 {
      DecimalReads(n / 10);
      assert s[..|s| - 1] == Decimal(n / 10) && Digit(s[|s| - 1]) == n % 10;
    } else {
      assert s[..0] == "" && Digit(s[0]) == n;
    }
  }

  /** The well-formed entries, in order. */
  function WellFormed(records: seq<Record>): (r: seq<Listed>)
    ensures |r| <= |records|
    decreases |records|
  {
    if records == [] then []
    else
      var init := WellFormed(records[..|records| - 1]);
      match records[|records| - 1]
      case Text(id, b) => init + [Listed(id, b)]
      case Number(n, b) => init + [Listed(Decimal(n), b)]
      case Malformed => init
  }

  /** Entry by entry: text and numbers are kept with their flag, anything else is left out. */
  lemma WellFormedSnoc(records: seq<Record>, r: Record)
    ensures var before, after := WellFormed(records), WellFormed(records + [r]);
            && (r.Malformed? ==> after == before)
            && (r.Text? ==> after == before + [Listed(r.id, r.blocked)])
            && (r.Number? ==> |after| == |before| + 1 && after[..|before|] == before
                              && ReadDecimal(after[|before|].id) == r.n && after[|before|].blocked == r.blocked)
    ensures WellFormed([]) == []
  {
    assert (records + [r])[..|records|] == records;
    if r.Number? { DecimalReads(r.n); }
  }

  function Min(a: nat, b: nat): nat { if a < b then a else b }

  /** Page `page`, counted from 1, of a server that holds `records`. */
  function Page(records: seq<Record>, page: nat, size: nat): seq<Record>
    requires page >= 1
  {
    records[Min((page - 1) * size, |records|)..Min(page * size, |records|)]
  }

  lemma PageLengths(n: nat, size: nat, page: nat)
    requires size >= 1 && page >= 1 && (page - 1) * size <= n
    ensures page * size == (page - 1) * size + size
    ensures n < page * size ==> n / size + 1 == page
    ensures n >= page * size ==> n / size + 1 > page
  {
    assert page * size == (page - 1) * size + size;
    var q, r := n / size, n % size;
    assert n == q * size + r;
    if n < page * size {
      if q >= page { Grows(page, q, size); }
      if q < page - 1 { Grows(q + 1, page - 1, size); }
    } else {
      if q < page { Grows(q + 1, page, size); }
    }
  }

  lemma Grows(a: nat, b: nat, size: nat)
    requires a <= b
    ensures a * size <= b * size
  {
  }

  /** How far page `page` reads, having read `from` records before it; and what its length says about
      the whole walk, which reads `all` records in `pages` pages. */
  lemma PageEnds(records: seq<Record>, size: nat, page: nat, maxPages: nat, from: nat, all: nat, pages: nat)
    requires size >= 1 && 1 <= page <= maxPages && from == (page - 1) * size <= |records|
    requires all == Min(|records|, maxPages * size) && pages == Min(maxPages, |records| / size + 1)
    ensures var to := Min(from + size, |records|);
            && Page(records, page, size) == records[from..to]
            && (to - from < size ==> to == all && pages == page)
            && (to - from == size ==> to == page * size && pages >= page)
            && (to - from == size && page == maxPages ==> to == all && pages == page)
  {
    PageLengths(|records|, size, page);
    Grows(page, maxPages, size);
  }

  /** `listAllIds` against a server that does not change. It asks for as many pages as it takes to see
      one that is not full, but no more than `maxPages`; if the request for one of these pages throws,
      there is no answer. */
  method ListAllIds(records: seq<Record>, pageSize: nat, maxPages: nat, failing: set<nat>)
    returns (answer: Option<seq<Listed>>, ghost requests: nat)
    requires pageSize >= 1
    ensures var pages := Min(maxPages, |records| / pageSize + 1);
            && (answer.Some? <==> forall page :: 1 <= page <= pages ==> page !in failing)
            && (answer.Some? ==> requests == pages)
            && (answer.None? ==> 1 <= requests <= pages && requests in failing
                                 && forall page :: 1 <= page < requests ==> page !in failing)
    ensures answer.Some? ==> answer.value == WellFormed(records[..Min(|records|, maxPages * pageSize)])
  {
    ghost var all, pages := Min(|records|, maxPages * pageSize), Min(maxPages, |records| / pageSize + 1);
    answer, requests := Walk(records, pageSize, maxPages, failing, all, pages);
  }

  /** The loop over the pages. */
  method Walk(records: seq<Record>, pageSize: nat, maxPages: nat, failing: set<nat>, ghost all: nat, ghost pages: nat)
    returns (answer: Option<seq<Listed>>, ghost requests: nat)
    requires pageSize >= 1
    requires all == Min(|records|, maxPages * pageSize) && pages == Min(maxPages, |records| / pageSize + 1)
    ensures answer.Some? <==> forall page :: 1 <= page <= pages ==> page !in failing
    ensures answer.Some? ==> requests == pages && answer.value == WellFormed(records[..all])
    ensures answer.None? ==> 1 <= requests <= pages && requests in failing
                             && forall page :: 1 <= page < requests ==> page !in failing
  {
    var out: seq<Listed> := [];
    requests := 0;
    ghost var from: nat := 0;
    var page := 1;
    while page <= maxPages
      invariant 1 <= page <= maxPages + 1
      invariant requests == page - 1 <= pages && from == requests * pageSize && from <= |records|
      invariant page > maxPages ==> from == all && requests == pages
      invariant out == WellFormed(records[..from])
      invariant forall k :: 1 <= k <= requests ==> k !in failing
    {
      PageEnds(records, pageSize, page, maxPages, from, all, pages);
      requests := requests + 1;
      if page in failing { return None, requests; }
      var list := Page(records, page, pageSize);
      if |list| == 0 { return Some(out), requests; }
      out := Append(records, from, list, out);
      if |list| < pageSize { return Some(out), requests; }
      from := from + |list|;
      page := page + 1;
    }
    answer := Some(out);
  }

  method Append(ghost records: seq<Record>, ghost from: nat, list: seq<Record>, out: seq<Listed>) returns (out': seq<Listed>)
    requires from + |list| <= |records| && list == records[from..from + |list|]
    requires out == WellFormed(records[..from])
    ensures out' == WellFormed(records[..from + |list|])
  {
    out' := out;
    for i := 0 to |list|
      invariant out' == WellFormed(records[..from + i])
    {
      ghost var done := records[..from + i + 1];
      assert done[..|done| - 1] == records[..from + i] && done[|done| - 1] == list[i];
      match list[i]
      case Text(id, b) => out' := out' + [Listed(id, b)];
      case Number(n, b) => out' := out' + [Listed(Decimal(n), b)];
      case Malformed =>
    }
  }

  // ---------------------------------------------------------------- getAllContacts

  function Unblocked(all: seq<Listed>): seq<Id> {
    if all == [] then [] else (if all[0].blocked then [] else [all[0].id]) + Unblocked(all[1..])
  }

  /** `Array.prototype.slice` on bounds that are not negative. */
  function Slice<X>(s: seq<X>, from: nat, to: nat): seq<X> {
    if Min(from, |s|) <= Min(to, |s|) then s[Min(from, |s|)..Min(to, |s|)] else []
  }

  /** `getAllContacts`: one window of the unblocked ids, or all of them without a limit. */
  function Window(all: seq<Listed>, limit: Option<nat>, offset: nat): seq<Id> {
    if limit.Some? then Slice(Unblocked(all), offset, offset + limit.value) else Unblocked(all)
  }

  /** The first `n` windows of size `limit`, one after another. */
  function Windows(all: seq<Listed>, limit: nat, n: nat): seq<Id> {
    if n == 0 then [] else Windows(all, limit, n - 1) + Window(all, Some(limit), (n - 1) * limit)
  }

  /** The window is over the ids that are not blocked, in their order. */
  lemma UnblockedCons(l: Listed, all: seq<Listed>)
    ensures Unblocked([l] + all) == if l.blocked then Unblocked(all) else [l.id] + Unblocked(all)
    ensures Unblocked([]) == []
  {
    assert ([l] + all)[1..] == all;
  }

  lemma SlicesJoin<X>(s: seq<X>, at: nat, length: nat)
    ensures Slice(s, 0, at) + Slice(s, at, at + length) == Slice(s, 0, at + length)
  {
    var from, to := Min(at, |s|), Min(at + length, |s|);
    assert Slice(s, 0, at) == s[..from] && Slice(s, at, at + length) == s[from..to];
    assert Slice(s, 0, at + length) == s[..to];
  }

  lemma SliceAll<X>(s: seq<X>, to: nat)
    ensures to >= |s| ==> Slice(s, 0, to) == s
    ensures to == 0 ==> Slice(s, 0, to) == []
  {
  }

  /** The windows tile the unblocked list: together they repeat nothing and skip nothing. */
  lemma {:induction false} WindowsTile(all: seq<Listed>, limit: nat, n: nat)
    ensures Windows(all, limit, n) == Slice(Unblocked(all), 0, n * limit)
    ensures n * limit >= |Unblocked(all)| ==> Windows(all, limit, n) == Window(all, None, 0)
  {
    var ids, to := Unblocked(all), n * limit;
    if n > 0 {
      var at := (n - 1) * limit;
      assert to == at + limit;
      assert Windows(all, limit, n - 1) == Slice(ids, 0, at) by { WindowsTile(all, limit, n - 1); }
      SlicesJoin(ids, at, limit);
    }
    SliceAll(ids, to);
  }

  // ---------------------------------------------------------------- validateContactForChannel

  datatype Channel = Email | Whatsapp | Sms | Other(name: string)

  datatype Reason = NoEmail | InvalidEmail | NoPhone | Blocked | UnknownChannel(name: string)

  predicate IsSpace(c: char) {
    c in {' ', '\t', '\n', '\U{000B}', '\U{000C}', '\r', '\U{00A0}', '\U{1680}', '\U{2028}', '\U{2029}',
          '\U{202F}', '\U{205F}', '\U{3000}', '\U{FEFF}'} || '\U{2000}' <= c <= '\U{200A}'
  }

  /** By code point: tab to carriage return, the space and its relatives, and the byte order mark. */
  lemma SpacesAre(c: char)
    ensures var n := c as int;
            IsSpace(c) <==>
              || 9 <= n <= 13 || n == 32 || n == 160 || n == 5760 || 8192 <= n <= 8202 || n == 8232 || n == 8233
              || n == 8239 || n == 8287 || n == 12288 || n == 65279
  {
  }

  /** The regular expression: one `@` with something before it, and after it a dot that has something
      on both sides; no white space anywhere. */
  predicate IsValidEmail(email: string) {
    && (forall i :: 0 <= i < |email| ==> !IsSpace(email[i]))
    && (exists a :: 0 < a < |email| && SoleAt(email, a) && (exists d :: a + 1 < d < |email| - 1 && email[d] == '.'))
  }

  /** A part of an address: something, without white space and without an `@`. */
  predicate IsPart(s: string) { s != "" && '@' !in s && forall i :: 0 <= i < |s| ==> !IsSpace(s[i]) }

  /** The addresses are those of the shape user@domain.rest; the last two may contain further dots. */
  lemma ValidEmailIff(email: string)
    ensures IsValidEmail(email) <==>
              exists user, domain, rest :: email == user + "@" + domain + "." + rest && IsPart(user) && IsPart(domain) && IsPart(rest)
  {
    if IsValidEmail(email) {
      var a :| 0 < a < |email| && SoleAt(email, a) && exists d :: a + 1 < d < |email| - 1 && email[d] == '.';
      var d :| a + 1 < d < |email| - 1 && email[d] == '.';
      var user, domain, rest := email[..a], email[a + 1..d], email[d + 1..];
      assert email == user + "@" + domain + "." + rest;
      assert IsPart(user) && IsPart(domain) && IsPart(rest);
    }
    if user, domain, rest :| email == user + "@" + domain + "." + rest && IsPart(user) && IsPart(domain) && IsPart(rest) {
      PartsMakeAnEmail(user, domain, rest);
    }
  }

  lemma PartsMakeAnEmail(user: string, domain: string, rest: string)
    requires IsPart(user) && IsPart(domain) && IsPart(rest)
    ensures IsValidEmail(user + "@" + domain + "." + rest)
  {
    var email, a, d := user + "@" + domain + "." + rest, |user|, |user| + 1 + |domain|;
    forall i | 0 <= i < |email| ensures !IsSpace(email[i]) && (i != a ==> email[i] != '@') {
      if i < a { assert email[i] == user[i]; }
      else if a < i < d { assert email[i] == domain[i - a - 1]; }
      else if d < i { assert email[i] == rest[i - d - 1]; }
    }
    assert email[a] == '@' && email[d] == '.' && SoleAt(email, a) && a + 1 < d < |email| - 1;
  }

  predicate SoleAt(s: string, a: nat)
    requires a < |s|
  {
    s[a] == '@' && forall i :: 0 <= i < |s| && i != a ==> s[i] != '@'
  }

  /** The reason a contact cannot be reached on the channel, if there is one. A contact that is blocked
      and lacks what the channel needs is refused for the lack. */
  function ValidateContactForChannel(c: Contact, channel: Channel): (r: Option<Reason>)
    ensures r == Some(NoEmail) <==> channel.Email? && c.email == ""
    ensures r == Some(InvalidEmail) <==> channel.Email? && c.email != "" && !IsValidEmail(c.email)
    ensures r == Some(NoPhone) <==> (channel.Whatsapp? || channel.Sms?) && c.phoneNumber == ""
    ensures channel.Other? <==> r == Some(UnknownChannel(if channel.Other? then channel.name else ""))
    ensures r.None? || r == Some(Blocked) <==> (if channel.Email? then IsValidEmail(c.email) else !channel.Other? && c.phoneNumber != "")
    ensures r == Some(Blocked) ==> c.blocked
    ensures r.None? ==> !c.blocked
  {
    if channel.Email? && c.email == "" then Some(NoEmail)
    else if channel.Email? && !IsValidEmail(c.email) then Some(InvalidEmail)
    else if (channel.Whatsapp? || channel.Sms?) && c.phoneNumber == "" then Some(NoPhone)
    else if channel.Other? then Some(UnknownChannel(channel.name))
    else if c.blocked then Some(Blocked)
    else None
  }

  /** The CRM knows the contact, and it passes the check. */
  predicate Reachable(crm: Crm, channel: Channel, id: Id) {
    id in crm && ValidateContactForChannel(crm[id], channel).None?
  }
}
