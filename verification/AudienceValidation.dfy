/** Checking a campaign's audience and removing what fails: `AudienceValidationService`. */
module AudienceValidation {
  import opened Prelude
  import opened ContactsClient
  import opened CampaignContacts

  datatype Kind = IsBlocked | MissingField | BadEmail | BadPhone | Duplicate

  datatype Issue = Issue(kind: Kind, contactId: Id)

  datatype Summary = Summary(blocked: nat, missingFields: nat, invalidEmail: nat, invalidPhone: nat, duplicates: nat)

  datatype Result = Result(totalContacts: nat, validContacts: nat, issues: seq<Issue>, summary: Summary, isValid: bool)

  const EMPTY_RESULT := Result(0, 0, [], Summary(0, 0, 0, 0, 0), false)

  predicate Includes(s: string, word: string) {
    exists i :: 0 <= i <= |s| - |word| && StandsAt(s, word, i)
  }

  predicate StandsAt(s: string, word: string, i: nat)
    requires i <= |s| - |word|
  {
    s[i..i + |word|] == word
  }

  /** The word stands in the text, with something or nothing on either side. */
  lemma IncludesIff(s: string, word: string)
    ensures Includes(s, word) <==> exists before, after :: s == before + word + after
  {
    if Includes(s, word) {
      var i :| 0 <= i <= |s| - |word| && StandsAt(s, word, i);
      assert s == s[..i] + word + s[i + |word|..];
    }
    if before, after :| s == before + word + after {
      assert s[|before|..|before| + |word|] == word;
      assert StandsAt(s, word, |before|);
    }
  }

  /** `categorizeValidationIssue` on the sentences that the channel check produces. It looks for words:
      both sentences about an email address contain "email", the one about a missing phone number
      contains "phone", and an unknown channel's sentence ends in the channel's name. */
  function Categorize(lower: string -> string, r: Reason): Kind {
    match r
    case Blocked => IsBlocked
    case NoEmail => BadEmail
    case InvalidEmail => BadEmail
    case NoPhone => BadPhone
    case UnknownChannel(name) =>
      var text := lower(name);
      if Includes(text, "blocked") then IsBlocked
      else if Includes(text, "email") then BadEmail
      else if Includes(text, "phone") then BadPhone
      else MissingField
  }

  /** What makes two contacts duplicates on the channel; the source skips an empty key. */
  function KeyOf(lower: string -> string, channel: Channel, c: Contact): Option<string> {
    var key := if channel.Email? && c.email != "" then lower(c.email)
               else if channel.Whatsapp? || channel.Sms? then c.phoneNumber else "";
    if key == "" then None else Some(key)
  }

  /** How the campaign looks to the checks: its channel, the CRM, and the lower-casing of text. */
  datatype Setting = Setting(crm: Crm, channel: Channel, lower: string -> string)

  function RowIssue(w: Setting, id: Id): Option<Issue> {
    if id !in w.crm then Some(Issue(MissingField, id))
    else
      var r := ValidateContactForChannel(w.crm[id], w.channel);
      if r.None? then None else Some(Issue(Categorize(w.lower, r.value), id))
  }

  function RowIssues(w: Setting, ids: seq<Id>): (r: seq<Issue>)
    decreases |ids|
  {
    if ids == [] then []
    else
      var init, issue := RowIssues(w, ids[..|ids| - 1]), RowIssue(w, ids[|ids| - 1]);
      if issue.Some? then init + [issue.value] else init
  }

  function Keys(w: Setting, cs: seq<Contact>): set<string> {
    set i | 0 <= i < |cs| && KeyOf(w.lower, w.channel, cs[i]).Some? :: KeyOf(w.lower, w.channel, cs[i]).value
  }

  predicate RepeatsKey(w: Setting, cs: seq<Contact>, c: Contact) {
    var key := KeyOf(w.lower, w.channel, c);
    key.Some? && key.value in Keys(w, cs)
  }

  /** Every contact whose key an earlier one has. */
  function DuplicateIssues(w: Setting, cs: seq<Contact>): seq<Issue>
    decreases |cs|
  {
    if cs == [] then []
    else
      var init, c := cs[..|cs| - 1], cs[|cs| - 1];
      DuplicateIssues(w, init) + if RepeatsKey(w, init, c) then [Issue(Duplicate, c.id)] else []
  }

  function Count(issues: seq<Issue>, kind: Kind): nat
    decreases |issues|
  {
    if issues == [] then 0
    else Count(issues[..|issues| - 1], kind) + if issues[|issues| - 1].kind == kind then 1 else 0
  }

  function Tally(issues: seq<Issue>): Summary {
    Summary(Count(issues, IsBlocked), Count(issues, MissingField), Count(issues, BadEmail),
            Count(issues, BadPhone), Count(issues, Duplicate))
  }

  function AllIssues(w: Setting, ids: seq<Id>): seq<Issue> {
    RowIssues(w, ids) + DuplicateIssues(w, Present(w.crm, Unique(ids)))
  }

  // ---------------------------------------------------------------- the service

  class AudienceValidationService {
    const repository: Repository
    const lower: string -> string

    constructor (repository: Repository, lower: string -> string)
      ensures this.repository == repository && this.lower == lower
    {
      this.repository, this.lower := repository, lower;
    }

    /** No answer when the campaign does not exist; `channel` is what its row says. */
    method ValidateAudience(crm: Crm, campaign: CampaignId, channel: Option<Channel>, order: seq<RowId>)
      returns (result: Option<Result>)
      requires Fetches(repository.rows, campaign, order)
      ensures result.None? <==> channel.None?
      ensures channel.Some? && order == [] ==>
                result.value.totalContacts == 0 && result.value.validContacts == 0 && result.value.issues == []
      ensures channel.Some? ==>
                && (result.value.isValid <==> result.value.validContacts > 0 && result.value.issues == [])
                && result.value.summary == Tally(result.value.issues)
      ensures channel.Some? && order != [] ==>
                var w := Setting(crm, channel.value, lower);
                var ids := ContactIds(repository.rows, order);
                && result.value.totalContacts == |order|
                && result.value.validContacts == |order| - |RowIssues(w, ids)|
                && result.value.issues == AllIssues(w, ids)
    {
      if channel.None? { return None; }
      if |order| == 0 { return Some(EMPTY_RESULT); }
      var w := Setting(crm, channel.value, lower);
      var contactIds := ContactIds(repository.rows, order);
      var contacts := FindByIds(crm, contactIds);
      var contactMap := ById(crm, contactIds, contacts);
      var issues, validContacts, summary := CheckRows(w, contactIds, contactMap);
      var duplicates := FindDuplicates(w, contacts);
      TallyConcat(issues, duplicates);
      OnlyDuplicates(w, contacts);
      NoDuplicates(w, contactIds);
      issues := issues + duplicates;
      summary := summary.(duplicates := |duplicates|);
      result := Some(Result(|order|, validContacts, issues, summary, validContacts > 0 && |issues| == 0));
    }

    method ById(crm: Crm, ids: seq<Id>, contacts: seq<Contact>) returns (m: map<Id, Contact>)
      requires contacts == Present(crm, Unique(ids))
      ensures forall id :: id in m ==> id in crm && m[id] == crm[id]
      ensures forall id :: id in ids && id in crm ==> id in m
    {
      m := map[];
      for i := 0 to |contacts|
        invariant forall id :: id in m ==> id in crm && m[id] == crm[id]
        invariant forall c :: c in contacts[..i] ==> c.id in m
      {
        assert contacts[..i + 1] == contacts[..i] + [contacts[i]];
        assert contacts[i] in contacts;
        m := m[contacts[i].id := contacts[i]];
      }
      assert contacts[..|contacts|] == contacts;
      assert forall id :: id in ids && id in crm ==> crm[id] in contacts && crm[id].id == id;
    }

    /** The loop over the rows. */
    method CheckRows(w: Setting, ids: seq<Id>, contactMap: map<Id, Contact>)
      returns (issues: seq<Issue>, valid: nat, summary: Summary)
      requires forall id :: id in contactMap ==> id in w.crm && contactMap[id] == w.crm[id]
      requires forall id :: id in ids && id in w.crm ==> id in contactMap
      ensures issues == RowIssues(w, ids) && valid + |issues| == |ids|
      ensures summary == Tally(issues)
    {
      issues, valid, summary := [], 0, Summary(0, 0, 0, 0, 0);
      for i := 0 to |ids|
        invariant issues == RowIssues(w, ids[..i]) && valid + |issues| == i
        invariant summary == Tally(issues)
      {
        assert ids[..i + 1][..i] == ids[..i];
        var id := ids[i];
        if id !in contactMap {
          issues, summary := Report(issues, Issue(MissingField, id), summary);
          continue;
        }
        var reason := ValidateContactForChannel(contactMap[id], w.channel);
        if reason.Some? {
          issues, summary := Report(issues, Issue(Categorize(w.lower, reason.value), id), summary);
        } else {
          valid := valid + 1;
        }
      }
      assert ids[..|ids|] == ids;
    }

    method Report(issues: seq<Issue>, issue: Issue, summary: Summary) returns (issues': seq<Issue>, summary': Summary)
      requires summary == Tally(issues)
      ensures issues' == issues + [issue] && summary' == Tally(issues')
    {
      issues' := issues + [issue];
      forall kind ensures Count(issues', kind) == Count(issues, kind) + if issue.kind == kind then 1 else 0 {
        CountSnoc(issues, issue, kind);
      }
      match issue.kind
      case IsBlocked => summary' := summary.(blocked := summary.blocked + 1);
      case MissingField => summary' := summary.(missingFields := summary.missingFields + 1);
      case BadEmail => summary' := summary.(invalidEmail := summary.invalidEmail + 1);
      case BadPhone => summary' := summary.(invalidPhone := summary.invalidPhone + 1);
      case Duplicate => summary' := summary.(duplicates := summary.duplicates + 1);
    }

    method FindDuplicates(w: Setting, contacts: seq<Contact>) returns (issues: seq<Issue>)
      ensures issues == DuplicateIssues(w, contacts)
    {
      issues := [];
      var seen: set<string> := {};
      for i := 0 to |contacts|
        invariant issues == DuplicateIssues(w, contacts[..i])
        invariant seen == Keys(w, contacts[..i])
      {
        assert contacts[..i + 1][..i] == contacts[..i];
        KeysSnoc(w, contacts[..i], contacts[i]);
        assert contacts[..i] + [contacts[i]] == contacts[..i + 1];
        var key := KeyOf(w.lower, w.channel, contacts[i]);
        if key.Some? && key.value in seen {
          issues := issues + [Issue(Duplicate, contacts[i].id)];
        } else if key.Some? {
          seen := seen + {key.value};
        }
      }
      assert contacts[..|contacts|] == contacts;
    }

    /** Deletes every row of the campaign whose contact has an issue. */
    method RemoveInvalidContacts(crm: Crm, campaign: CampaignId, channel: Option<Channel>, order: seq<RowId>)
      returns (removed: Option<nat>)
      requires Fetches(repository.rows, campaign, order)
      modifies repository
      ensures removed.None? <==> channel.None?
      ensures repository.rows ==
                if channel.None? then old(repository.rows)
                else Remaining(Setting(crm, channel.value, lower), old(repository.rows), campaign, order)
      ensures removed.Some? ==> removed.value == |old(repository.rows)| - |repository.rows|
    {
      var validation := ValidateAudience(crm, campaign, channel, order);
      if validation.None? { return None; }
      var w := Setting(crm, channel.value, lower);
      if |validation.value.issues| == 0 {
        NothingToRemove(w, repository.rows, campaign, order);
        return Some(0);
      }
      var affected := DeleteRows(campaign, Reported(validation.value.issues));
      removed := Some(affected);
    }

    method DeleteRows(campaign: CampaignId, ids: set<Id>) returns (affected: nat)
      modifies repository
      ensures repository.rows == WithoutContacts(old(repository.rows), campaign, ids)
      ensures affected == |old(repository.rows)| - |repository.rows|
    {
      ghost var rows := repository.rows;
      var gone := set r | r in repository.rows && repository.rows[r].campaign == campaign && repository.rows[r].contact in ids;
      repository.rows := map r | r in repository.rows && r !in gone :: repository.rows[r];
      Partition(rows, gone, repository.rows);
      affected := |gone|;
    }
  }

  function Reported(issues: seq<Issue>): set<Id> { set i | 0 <= i < |issues| :: issues[i].contactId }

  /** The rows that a removal leaves. */
  function Remaining(w: Setting, rows: Table, campaign: CampaignId, order: seq<RowId>): Table
    requires forall r :: r in order ==> r in rows
  {
    WithoutContacts(rows, campaign, Reported(AllIssues(w, ContactIds(rows, order))))
  }

  function WithoutContacts(rows: Table, campaign: CampaignId, ids: set<Id>): Table {
    map r | r in rows && !(rows[r].campaign == campaign && rows[r].contact in ids) :: rows[r]
  }

  lemma NothingToRemove(w: Setting, rows: Table, campaign: CampaignId, order: seq<RowId>)
    requires forall r :: r in order ==> r in rows
    requires AllIssues(w, ContactIds(rows, order)) == []
    ensures Remaining(w, rows, campaign, order) == rows
  {
  }

  lemma Partition(rows: Table, gone: set<RowId>, left: Table)
    requires gone <= rows.Keys && left.Keys == rows.Keys - gone
    ensures |gone| == |rows| - |left|
  {
    assert rows.Keys == gone + left.Keys;
  }

  lemma KeysSnoc(w: Setting, cs: seq<Contact>, c: Contact)
    ensures var key := KeyOf(w.lower, w.channel, c);
            Keys(w, cs + [c]) == if key.Some? then Keys(w, cs) + {key.value} else Keys(w, cs)
  {
    var all, key := cs + [c], KeyOf(w.lower, w.channel, c);
    forall k | k in Keys(w, cs) ensures k in Keys(w, all) {
      var i :| 0 <= i < |cs| && KeyOf(w.lower, w.channel, cs[i]) == Some(k);
      assert all[i] == cs[i];
    }
    if key.Some? { assert all[|cs|] == c; }
  }

  lemma CountSnoc(issues: seq<Issue>, issue: Issue, kind: Kind)
    ensures Count(issues + [issue], kind) == Count(issues, kind) + if issue.kind == kind then 1 else 0
  {
    assert (issues + [issue])[..|issues|] == issues;
  }

  lemma {:induction false} TallyConcat(a: seq<Issue>, b: seq<Issue>)
    ensures forall kind :: Count(a + b, kind) == Count(a, kind) + Count(b, kind)
    decreases |b|
  {
    if b == [] {
      assert a + b == a;
    } else {
      var init := b[..|b| - 1];
      TallyConcat(a, init);
      assert (a + b)[..|a + b| - 1] == a + init;
    }
  }

  lemma {:induction false} OnlyDuplicates(w: Setting, cs: seq<Contact>)
    ensures forall kind :: Count(DuplicateIssues(w, cs), kind) == if kind == Duplicate then |DuplicateIssues(w, cs)| else 0
    decreases |cs|
  {
    if cs != [] {
      var init, c := cs[..|cs| - 1], cs[|cs| - 1];
      var before := DuplicateIssues(w, init);
      OnlyDuplicates(w, init);
      if RepeatsKey(w, init, c) {
        forall kind ensures Count(DuplicateIssues(w, cs), kind) == if kind == Duplicate then |before| + 1 else 0 {
          CountSnoc(before, Issue(Duplicate, c.id), kind);
        }
      } else {
        assert DuplicateIssues(w, cs) == before;
      }
    }
  }

  lemma {:induction false} NoDuplicates(w: Setting, ids: seq<Id>)
    ensures Count(RowIssues(w, ids), Duplicate) == 0
    decreases |ids|
  {
    if ids != [] {
      NoDuplicates(w, ids[..|ids| - 1]);
    }
  }

  // ---------------------------------------------------------------- what a validation says

  /** The issues of one kind. */
  ghost function OfKind(issues: seq<Issue>, kind: Kind): set<nat> { set i: nat | i < |issues| && issues[i].kind == kind }

  lemma {:induction false} CountIs(issues: seq<Issue>, kind: Kind)
    ensures Count(issues, kind) == |OfKind(issues, kind)|
    decreases |issues|
  {
    if issues != [] {
      var n := |issues| - 1;
      CountIs(issues[..n], kind);
      assert OfKind(issues, kind) == OfKind(issues[..n], kind) + if issues[n].kind == kind then {n} else {};
    }
  }

  /** Each number of the summary is the number of issues of its kind. */
  lemma SummaryCounts(issues: seq<Issue>)
    ensures Tally(issues).blocked == |OfKind(issues, IsBlocked)|
    ensures Tally(issues).missingFields == |OfKind(issues, MissingField)|
    ensures Tally(issues).invalidEmail == |OfKind(issues, BadEmail)|
    ensures Tally(issues).invalidPhone == |OfKind(issues, BadPhone)|
    ensures Tally(issues).duplicates == |OfKind(issues, Duplicate)|
  {
    CountIs(issues, IsBlocked);
    CountIs(issues, MissingField);
    CountIs(issues, BadEmail);
    CountIs(issues, BadPhone);
    CountIs(issues, Duplicate);
  }

  /** The CRM knows the contact, and messages on the channel can be sent to it. */
  predicate Writable(w: Setting, id: Id) {
    id in w.crm &&
    var c := w.crm[id];
    && !c.blocked
    && match w.channel
       case Email => IsValidEmail(c.email)
       case Whatsapp => c.phoneNumber != ""
       case Sms => c.phoneNumber != ""
       case Other(_) => false
  }

  lemma WritableIff(w: Setting, id: Id)
    ensures RowIssue(w, id).None? <==> Writable(w, id)
    ensures Reachable(w.crm, w.channel, id) <==> Writable(w, id)
  {
  }

  ghost function WritableRows(w: Setting, ids: seq<Id>): set<nat> { set i: nat | i < |ids| && Writable(w, ids[i]) }

  /** `validContacts`, the rows without an issue of their own, are those with a writable contact. */
  lemma {:induction false} ValidRowsAreWritable(w: Setting, ids: seq<Id>)
    ensures |ids| - |RowIssues(w, ids)| == |WritableRows(w, ids)|
    decreases |ids|
  {
    if ids != [] {
      var n := |ids| - 1;
      ValidRowsAreWritable(w, ids[..n]);
      WritableIff(w, ids[n]);
      assert WritableRows(w, ids) == WritableRows(w, ids[..n]) + if Writable(w, ids[n]) then {n} else {};
    }
  }

  /** What a contact of the campaign is reported for. On an email channel it is the address, whether it is
      absent or wrong, on a phone channel the number; being blocked comes after that; and only contacts
      that the CRM does not know are reported as missing something. */
  lemma RowIsReportedFor(w: Setting, id: Id, kind: Kind)
    requires !w.channel.Other?
    ensures RowIssue(w, id) == Some(Issue(kind, id)) <==>
              if id !in w.crm then kind == MissingField
              else
                var c := w.crm[id];
                if w.channel.Email? && !IsValidEmail(c.email) then kind == BadEmail
                else if !w.channel.Email? && c.phoneNumber == "" then kind == BadPhone
                else c.blocked && kind == IsBlocked
    ensures RowIssue(w, id).None? || exists k :: RowIssue(w, id) == Some(Issue(k, id))
  {
  }

  /** On a channel that does not exist every known contact is reported, for what the channel's name
      happens to contain. */
  lemma UnknownChannelIsReportedFor(w: Setting, id: Id)
    requires w.channel.Other? && id in w.crm
    ensures var name := w.lower(w.channel.name);
            RowIssue(w, id) ==
              Some(Issue(if exists a, b :: name == a + "blocked" + b then IsBlocked
                         else if exists a, b :: name == a + "email" + b then BadEmail
                         else if exists a, b :: name == a + "phone" + b then BadPhone
                         else MissingField, id))
  {
    IncludesIff(w.lower(w.channel.name), "blocked");
    IncludesIff(w.lower(w.channel.name), "email");
    IncludesIff(w.lower(w.channel.name), "phone");
  }

  /** Two contacts are duplicates of each other if they share an email address but for its case, or a phone
      number, as the channel has it. */
  lemma SharedKeyIff(w: Setting, a: Contact, b: Contact)
    ensures KeyOf(w.lower, w.channel, a).Some? && KeyOf(w.lower, w.channel, a) == KeyOf(w.lower, w.channel, b) <==>
              match w.channel
              case Email => a.email != "" && b.email != "" && w.lower(a.email) != "" && w.lower(a.email) == w.lower(b.email)
              case Whatsapp => a.phoneNumber != "" && a.phoneNumber == b.phoneNumber
              case Sms => a.phoneNumber != "" && a.phoneNumber == b.phoneNumber
              case Other(_) => false
  {
  }

  /** Each row is either valid or has one issue of its own, and the summary counts the issues. */
  lemma ValidationAddsUp(w: Setting, ids: seq<Id>)
    ensures |RowIssues(w, ids)| <= |ids|
    ensures var s := Tally(AllIssues(w, ids));
            && s.blocked + s.missingFields + s.invalidEmail + s.invalidPhone + s.duplicates == |AllIssues(w, ids)|
            && s.duplicates == |AllIssues(w, ids)| - |RowIssues(w, ids)|
  {
    var cs := Present(w.crm, Unique(ids));
    RowIssuesWithin(w, ids);
    TallyIsComplete(AllIssues(w, ids));
    TallyConcat(RowIssues(w, ids), DuplicateIssues(w, cs));
    NoDuplicates(w, ids);
    OnlyDuplicates(w, cs);
  }

  lemma {:induction false} TallyIsComplete(issues: seq<Issue>)
    ensures var s := Tally(issues);
            s.blocked + s.missingFields + s.invalidEmail + s.invalidPhone + s.duplicates == |issues|
    decreases |issues|
  {
    if issues != [] {
      var init, last := issues[..|issues| - 1], issues[|issues| - 1];
      TallyIsComplete(init);
      match last.kind case IsBlocked => case MissingField => case BadEmail => case BadPhone => case Duplicate =>
    }
  }

  lemma {:induction false} RowIssuesWithin(w: Setting, ids: seq<Id>)
    ensures |RowIssues(w, ids)| <= |ids|
    ensures forall issue :: issue in RowIssues(w, ids) <==> exists id :: id in ids && RowIssue(w, id) == Some(issue)
    decreases |ids|
  {
    if ids != [] {
      var init, id := ids[..|ids| - 1], ids[|ids| - 1];
      assert ids == init + [id];
      RowIssuesWithin(w, init);
    }
  }

  /** On a channel that exists, a contact in the CRM is never reported as missing a field: the words
      the categories look for put a missing address or number under "invalid". */
  lemma OnlyAbsentContactsMissAField(w: Setting, id: Id)
    requires !w.channel.Other?
    ensures RowIssue(w, id) == Some(Issue(MissingField, id)) <==> id !in w.crm
  {
  }

  // ---------------------------------------------------------------- who survives a removal

  /** The contact at `i` has the key of an earlier one. */
  predicate RepeatsEarlier(w: Setting, cs: seq<Contact>, i: nat)
    requires i < |cs|
  {
    var key := KeyOf(w.lower, w.channel, cs[i]);
    key.Some? && exists j :: 0 <= j < i && KeyOf(w.lower, w.channel, cs[j]) == key
  }

  lemma {:induction false} DuplicateReportedIff(w: Setting, cs: seq<Contact>, id: Id)
    ensures id in Reported(DuplicateIssues(w, cs)) <==>
              exists i :: 0 <= i < |cs| && cs[i].id == id && RepeatsEarlier(w, cs, i)
    decreases |cs|
  {
    if cs != [] {
      var init, c, n := cs[..|cs| - 1], cs[|cs| - 1], |cs| - 1;
      DuplicateReportedIff(w, init, id);
      forall i | 0 <= i < n ensures init[i] == cs[i] && RepeatsEarlier(w, cs, i) == RepeatsEarlier(w, init, i) {
        EarlierInPrefix(w, init, c, i);
        assert cs == init + [c];
      }
      LastRepeats(w, init, c);
      assert cs == init + [c];
      var last := if RepeatsKey(w, init, c) then [Issue(Duplicate, c.id)] else [];
      ReportedConcat(DuplicateIssues(w, init), last);
      assert RepeatsKey(w, init, c) ==> last[0].contactId == c.id;
      assert id in Reported(last) <==> RepeatsEarlier(w, cs, n) && cs[n].id == id;
    }
  }

  lemma EarlierInPrefix(w: Setting, init: seq<Contact>, c: Contact, i: nat)
    requires i < |init|
    ensures RepeatsEarlier(w, init + [c], i) == RepeatsEarlier(w, init, i)
  {
    assert forall j :: 0 <= j <= i ==> (init + [c])[j] == init[j];
  }

  lemma LastRepeats(w: Setting, init: seq<Contact>, c: Contact)
    ensures RepeatsKey(w, init, c) == RepeatsEarlier(w, init + [c], |init|)
  {
    var cs, key := init + [c], KeyOf(w.lower, w.channel, c);
    assert cs[|init|] == c && forall j :: 0 <= j < |init| ==> cs[j] == init[j];
    if RepeatsKey(w, init, c) {
      var j :| 0 <= j < |init| && KeyOf(w.lower, w.channel, init[j]) == key;
      assert KeyOf(w.lower, w.channel, cs[j]) == key;
    }
    if RepeatsEarlier(w, cs, |init|) {
      var j :| 0 <= j < |init| && KeyOf(w.lower, w.channel, cs[j]) == key;
      assert KeyOf(w.lower, w.channel, init[j]).value in Keys(w, init);
    }
  }

  lemma ReportedConcat(a: seq<Issue>, b: seq<Issue>)
    ensures Reported(a + b) == Reported(a) + Reported(b)
  {
    forall id | id in Reported(a) ensures id in Reported(a + b) {
      var i :| 0 <= i < |a| && a[i].contactId == id;
      assert (a + b)[i] == a[i];
    }
    forall id | id in Reported(b) ensures id in Reported(a + b) {
      var i :| 0 <= i < |b| && b[i].contactId == id;
      assert (a + b)[|a| + i] == b[i];
    }
  }

  lemma RowsReported(w: Setting, ids: seq<Id>)
    ensures forall id :: id in Reported(RowIssues(w, ids)) <==> id in ids && !Reachable(w.crm, w.channel, id)
  {
    RowIssuesWithin(w, ids);
    var issues := RowIssues(w, ids);
    forall id | id in Reported(issues) ensures id in ids && !Reachable(w.crm, w.channel, id) {
      var i :| 0 <= i < |issues| && issues[i].contactId == id;
      assert issues[i] in issues;
    }
    forall id | id in ids && !Reachable(w.crm, w.channel, id) ensures id in Reported(issues) {
      var issue := RowIssue(w, id).value;
      assert issue in issues;
      var i :| 0 <= i < |issues| && issues[i] == issue;
    }
  }

  /** Exactly these contacts are reported: those that cannot be reached, and those that share their
      key with a contact fetched before them, reachable or not. */
  lemma {:induction false} ReportedIff(w: Setting, ids: seq<Id>, id: Id)
    ensures var cs := Present(w.crm, Unique(ids));
            id in Reported(AllIssues(w, ids)) <==>
              || (id in ids && !Reachable(w.crm, w.channel, id))
              || (exists i :: 0 <= i < |cs| && cs[i].id == id && RepeatsEarlier(w, cs, i))
  {
    var cs := Present(w.crm, Unique(ids));
    RowsReported(w, ids);
    DuplicateReportedIff(w, cs, id);
    ReportedConcat(RowIssues(w, ids), DuplicateIssues(w, cs));
  }

  /** Of the contacts that share a key, one is kept exactly when the first of them to be fetched can be
      reached; otherwise all of them are removed, reachable ones included. */
  lemma KeyIsKeptIff(w: Setting, ids: seq<Id>, i: nat)
    requires var cs := Present(w.crm, Unique(ids));
             i < |cs| && KeyOf(w.lower, w.channel, cs[i]).Some? && !RepeatsEarlier(w, cs, i)
    ensures var cs := Present(w.crm, Unique(ids));
            var key := KeyOf(w.lower, w.channel, cs[i]);
            (exists j :: 0 <= j < |cs| && KeyOf(w.lower, w.channel, cs[j]) == key && cs[j].id !in Reported(AllIssues(w, ids)))
            <==> Reachable(w.crm, w.channel, cs[i].id)
  {
    var cs := Present(w.crm, Unique(ids));
    var key := KeyOf(w.lower, w.channel, cs[i]);
    PresentDistinct(w.crm, Unique(ids));
    forall j | 0 <= j < |cs| && KeyOf(w.lower, w.channel, cs[j]) == key
      ensures cs[j].id !in Reported(AllIssues(w, ids)) <==> j == i && Reachable(w.crm, w.channel, cs[i].id)
    {
      assert cs[j] in cs;
      ReportedIff(w, ids, cs[j].id);
      if j != i {
        assert j > i;
        assert RepeatsEarlier(w, cs, j);
      }
    }
  }

  // ---------------------------------------------------------------- one removal is enough

  lemma RemainingContacts(w: Setting, rows: Table, campaign: CampaignId, order: seq<RowId>, again: seq<RowId>)
    requires Fetches(rows, campaign, order) && Fetches(Remaining(w, rows, campaign, order), campaign, again)
    ensures var ids := ContactIds(rows, order);
            forall id :: id in ContactIds(Remaining(w, rows, campaign, order), again) <==>
              id in ids && id !in Reported(AllIssues(w, ids))
  {
    var left := Remaining(w, rows, campaign, order);
    var ids, ids' := ContactIds(rows, order), ContactIds(left, again);
    forall id | id in ids' ensures id in ids && id !in Reported(AllIssues(w, ids)) {
      var k :| 0 <= k < |ids'| && ids'[k] == id;
      assert again[k] in again && again[k] in order;
      var m :| 0 <= m < |order| && order[m] == again[k];
      assert ids[m] == id;
    }
    forall id | id in ids && id !in Reported(AllIssues(w, ids)) ensures id in ids' {
      var k :| 0 <= k < |ids| && ids[k] == id;
      assert order[k] in order && order[k] in left && order[k] in again;
      var m :| 0 <= m < |again| && again[m] == order[k];
      assert ids'[m] == id;
    }
  }

  /** Two contacts that both survive share no key. */
  lemma SurvivorsShareNoKey(w: Setting, ids: seq<Id>, a: Contact, b: Contact)
    requires var cs := Present(w.crm, Unique(ids)); a in cs && b in cs && a.id != b.id
    requires a.id !in Reported(AllIssues(w, ids)) && b.id !in Reported(AllIssues(w, ids))
    ensures KeyOf(w.lower, w.channel, a).Some? ==> KeyOf(w.lower, w.channel, a) != KeyOf(w.lower, w.channel, b)
  {
    var cs := Present(w.crm, Unique(ids));
    var i :| 0 <= i < |cs| && cs[i] == a;
    var j :| 0 <= j < |cs| && cs[j] == b;
    ReportedIff(w, ids, a.id);
    ReportedIff(w, ids, b.id);
    assert !RepeatsEarlier(w, cs, i) && !RepeatsEarlier(w, cs, j);
  }

  /** After a removal, with the CRM unchanged, a validation in any fetch order finds no issue; so the
      audience is valid as soon as anybody is left in it, and a second removal changes nothing. */
  lemma OneRemovalIsEnough(w: Setting, rows: Table, campaign: CampaignId, order: seq<RowId>, again: seq<RowId>)
    requires Fetches(rows, campaign, order) && Fetches(Remaining(w, rows, campaign, order), campaign, again)
    ensures var left := Remaining(w, rows, campaign, order);
            && AllIssues(w, ContactIds(left, again)) == []
            && Remaining(w, left, campaign, again) == left
  {
    var left := Remaining(w, rows, campaign, order);
    var ids, ids' := ContactIds(rows, order), ContactIds(left, again);
    RemainingContacts(w, rows, campaign, order, again);
    forall id | id in ids' ensures Reachable(w.crm, w.channel, id) { ReportedIff(w, ids, id); }
    RowIssuesWithin(w, ids');
    if RowIssues(w, ids') != [] { assert RowIssues(w, ids')[0] in RowIssues(w, ids'); }
    NoKeyTwice(w, ids, ids');
    NothingToRemove(w, left, campaign, again);
  }

  lemma NoKeyTwice(w: Setting, ids: seq<Id>, left: seq<Id>)
    requires forall id :: id in left ==> id in ids && id !in Reported(AllIssues(w, ids))
    ensures DuplicateIssues(w, Present(w.crm, Unique(left))) == []
  {
    var cs := Present(w.crm, Unique(left));
    PresentDistinct(w.crm, Unique(left));
    forall i | 0 <= i < |cs| ensures !RepeatsEarlier(w, cs, i) {
      forall j | 0 <= j < i && KeyOf(w.lower, w.channel, cs[i]).Some?
        ensures KeyOf(w.lower, w.channel, cs[j]) != KeyOf(w.lower, w.channel, cs[i])
      {
        assert cs[i] in cs && cs[j] in cs;
        SurvivorsShareNoKey(w, ids, cs[i], cs[j]);
      }
    }
    var issues := DuplicateIssues(w, cs);
    if issues != [] {
      DuplicateReportedIff(w, cs, issues[0].contactId);
      assert false;
    }
  }

  /** Rows of other campaigns stay, and the removed rows are exactly those of reported contacts. */
  lemma OnlyReportedRowsGo(w: Setting, rows: Table, campaign: CampaignId, order: seq<RowId>, r: RowId)
    requires Fetches(rows, campaign, order) && r in rows
    ensures var ids := ContactIds(rows, order);
            var id := rows[r].contact;
            r !in Remaining(w, rows, campaign, order) <==>
              rows[r].campaign == campaign
              && (!Reachable(w.crm, w.channel, id)
                  || exists i :: 0 <= i < |Present(w.crm, Unique(ids))| && Present(w.crm, Unique(ids))[i].id == id
                       && RepeatsEarlier(w, Present(w.crm, Unique(ids)), i))
  {
    ReportedIff(w, ContactIds(rows, order), rows[r].contact);
    if rows[r].campaign == campaign {
      assert r in order;
      var k :| 0 <= k < |order| && order[k] == r;
      assert ContactIds(rows, order)[k] == rows[r].contact;
    }
  }
}
