/** The names under which everything is kept in the one Redis database, as text. The other modules
    use structured keys; this module shows when the text distinguishes them and when it does not. */
module CacheKeys {
  import opened Prelude
  import B = BaseCache

  datatype Service = Journeys | Sessions | Links | Contacts | Segments

  function Name(s: Service): string {
    match s
    case Journeys => "journey"
    case Sessions => "journey-session"
    case Links => "short-link"
    case Contacts => "contact"
    case Segments => "segment"
  }

  datatype RedisKey =
    | Value(service: Service, scope: string, id: string)
    | Index(service: Service, scope: string)
    | ShortCode(scope: string, code: string)
    | Clicks(scope: string, code: string)
    | Waiting(contact: string)
    | Dedup(journey: string, contact: string, message: string)

  /** `scopedPrefix`: an empty suffix adds nothing. */
  function Prefix(service: Service, scope: string): seq<string> {
    ["evo-campaign", Name(service)] + if scope == "" then [] else [scope]
  }

  /** The parts of a key before its last one, and the last one. */
  function Front(k: RedisKey): seq<string> {
    match k
    case Value(service, scope, _) => Prefix(service, scope)
    case Index(service, scope) => Prefix(service, scope)
    case ShortCode(scope, _) => Prefix(Links, scope) + ["code"]
    case Clicks(scope, _) => Prefix(Links, scope) + ["clicks"]
    case Waiting(_) => ["evo-campaign", "journey-session", "waiting"]
    case Dedup(journey, contact, _) => ["evo-campaign", "journey", "dedup", journey, contact]
  }

  function Last(k: RedisKey): string {
    match k
    case Value(_, _, id) => id
    case Index(_, _) => "index"
    case ShortCode(_, code) => code
    case Clicks(_, code) => code
    case Waiting(contact) => contact
    case Dedup(_, _, message) => message
  }

  function Text(k: RedisKey): string { Join(Front(k), Last(k)) }

  function Join(parts: seq<string>, last: string): string {
    if parts == [] then last else parts[0] + ":" + Join(parts[1..], last)
  }

  // ---------------------------------------------------------------- taking a key apart

  function FirstColon(s: string): (n: nat)
    ensures n <= |s| && (n < |s| ==> s[n] == ':') && forall i :: 0 <= i < n ==> s[i] != ':'
  {
    if s == "" || s[0] == ':' then 0 else 1 + FirstColon(s[1..])
  }

  function Split(s: string): seq<string>
    decreases |s|
  {
    var n := FirstColon(s);
    if n == |s| then [s] else [s[..n]] + Split(s[n + 1..])
  }

  predicate Plain(s: string) { ':' !in s }

  lemma ColonAfter(p: string, rest: string)
    ensures var s := p + ":" + rest;
            && |p| < |s| && s[|p|] == ':' && s[..|p|] == p && s[|p| + 1..] == rest
            && forall i :: 0 <= i < |p| ==> s[i] == p[i]
  {
  }

  lemma SplitFirst(p: string, rest: string)
    requires Plain(p)
    ensures Split(p + ":" + rest) == [p] + Split(rest)
  {
    ColonAfter(p, rest);
    var s := p + ":" + rest;
    assert FirstColon(s) == |p| by {
      assert forall i :: 0 <= i < |p| ==> s[i] == p[i] && p[i] in p;
    }
  }

  /** Splitting undoes joining, whatever the last part contains. */
  lemma {:induction false} SplitJoin(parts: seq<string>, last: string)
    requires forall p :: p in parts ==> Plain(p)
    ensures Split(Join(parts, last)) == parts + Split(last)
  {
    if parts != [] {
      var p, rest := parts[0], Join(parts[1..], last);
      SplitJoin(parts[1..], last);
      SplitFirst(p, rest);
      assert parts + Split(last) == [p] + (parts[1..] + Split(last));
    }
  }

  lemma {:induction false} SplitInjective(a: string, b: string)
    requires Split(a) == Split(b)
    ensures a == b
    decreases |a|
  {
    var n, m := FirstColon(a), FirstColon(b);
    assert |Split(a)| == 1 <==> n == |a|;
    assert |Split(b)| == 1 <==> m == |b|;
    if n < |a| {
      assert Split(a)[1..] == Split(a[n + 1..]) && Split(b)[1..] == Split(b[m + 1..]);
      assert Split(a)[0] == a[..n] && Split(b)[0] == b[..m];
      SplitInjective(a[n + 1..], b[m + 1..]);
      assert a == a[..n] + ":" + a[n + 1..] && b == b[..m] + ":" + b[m + 1..];
    } else {
      assert Split(a)[0] == a && Split(b)[0] == b;
    }
  }

  // ---------------------------------------------------------------- when keys clash

  /** Every component but a message id is free of colons. */
  predicate PlainKey(k: RedisKey) {
    (forall p :: p in Front(k) ==> Plain(p)) && (k.Dedup? || Plain(Last(k)))
  }

  lemma PlainNames()
    ensures forall s: Service :: Plain(Name(s))
  {
    forall s: Service ensures Plain(Name(s)) {
      match s case Journeys => case Sessions => case Links => case Contacts => case Segments =>
    }
  }

  lemma TextTakenApart(k: RedisKey)
    requires PlainKey(k)
    ensures Split(Text(k)) == Front(k) + Split(Last(k))
    ensures !k.Dedup? ==> Split(Last(k)) == [Last(k)]
    ensures |Split(Last(k))| >= 1
  {
    SplitJoin(Front(k), Last(k));
  }

  /** The pairs of different keys that share a name: an entity whose id is "index" with its index, and
      three kinds of key with the values and index of a scope that is called like their marker. */
  predicate Clash(a: RedisKey, b: RedisKey) {
    || (a.Value? && b == Index(a.service, a.scope) && a.id == "index")
    || (b.ShortCode? && b.scope == "" && (a == Value(Links, "code", b.code) || (a == Index(Links, "code") && b.code == "index")))
    || (b.Clicks? && b.scope == "" && (a == Value(Links, "clicks", b.code) || (a == Index(Links, "clicks") && b.code == "index")))
    || (b.Waiting? && (a == Value(Sessions, "waiting", b.contact) || (a == Index(Sessions, "waiting") && b.contact == "index")))
  }

  lemma ClashingKeysMeet(a: RedisKey, b: RedisKey)
    requires Clash(a, b)
    ensures Text(a) == Text(b)
  {
    if b.ShortCode? { assert Front(a) == Front(b); }
    if b.Clicks? { assert Front(a) == Front(b); }
    if b.Waiting? { assert Front(a) == Front(b); }
  }

  /** Two keys without colons in their parts have one name exactly when they are the same key or one
      of the clashing pairs. In particular journey, contact and message are told apart in a dedup key
      whatever the message id contains. */
  lemma SameTextIff(a: RedisKey, b: RedisKey)
    requires PlainKey(a) && PlainKey(b)
    ensures Text(a) == Text(b) <==> a == b || Clash(a, b) || Clash(b, a)
  {
    if Clash(a, b) { ClashingKeysMeet(a, b); }
    if Clash(b, a) { ClashingKeysMeet(b, a); }
    if Text(a) == Text(b) {
      TextTakenApart(a);
      TextTakenApart(b);
      SamePartsSameKey(a, b);
    }
  }

  lemma SamePartsSameKey(a: RedisKey, b: RedisKey)
    requires Front(a) + Split(Last(a)) == Front(b) + Split(Last(b))
    requires !a.Dedup? ==> Split(Last(a)) == [Last(a)]
    requires !b.Dedup? ==> Split(Last(b)) == [Last(b)]
    requires |Split(Last(a))| >= 1 && |Split(Last(b))| >= 1
    ensures a == b || Clash(a, b) || Clash(b, a)
  {
    var x, y := Front(a) + Split(Last(a)), Front(b) + Split(Last(b));
    assert |x| == |y| && x[0] == y[0] && x[1] == y[1] && x[2] == y[2];
    if a.Dedup? && b.Dedup? {
      assert x[3] == y[3] && x[4] == y[4] && x[5..] == Split(Last(a)) && y[5..] == Split(Last(b));
      SplitInjective(a.message, b.message);
    } else if !a.Dedup? && !b.Dedup? {
      assert x[|x| - 1] == Last(a) && y[|y| - 1] == Last(b);
      assert x[..|x| - 1] == Front(a) && y[..|y| - 1] == Front(b);
      SameFront(a, b);
    }
  }

  lemma SameFront(a: RedisKey, b: RedisKey)
    requires !a.Dedup? && !b.Dedup? && Front(a) == Front(b) && Last(a) == Last(b)
    ensures a == b || Clash(a, b) || Clash(b, a)
  {
    var x, y := Front(a), Front(b);
    assert x[1] == y[1];
    assert |x| >= 3 ==> x[2] == y[2];
    assert |x| >= 4 ==> x[3] == y[3];
  }

  /** The structured value keys of a cache stand for distinct names, and none of them for an index
      unless some entity has the id "index". */
  lemma ValueKeysAreDistinct(service: Service, j: B.Key, k: B.Key)
    requires Plain(j.scope) && Plain(j.id) && Plain(k.scope) && Plain(k.id)
    ensures Text(Value(service, j.scope, j.id)) == Text(Value(service, k.scope, k.id)) <==> j == k
    ensures Text(Value(service, j.scope, j.id)) == Text(Index(service, k.scope)) <==> j == B.Key(k.scope, "index")
  {
    PlainNames();
    SameTextIff(Value(service, j.scope, j.id), Value(service, k.scope, k.id));
    SameTextIff(Value(service, j.scope, j.id), Index(service, k.scope));
  }

  /** With a colon in an id the scopes run together: this entity of the shared namespace has the name
      of that entity of scope "a". */
  lemma ColonsMixScopes(service: Service)
    ensures Text(Value(service, "", "a:b")) == Text(Value(service, "a", "b"))
  {
    var head := ["evo-campaign", Name(service)];
    assert Prefix(service, "") == head && Prefix(service, "a") == head + ["a"];
    JoinSnoc(head, "a", "b");
  }

  lemma {:induction false} JoinSnoc(parts: seq<string>, p: string, last: string)
    ensures Join(parts + [p], last) == Join(parts, p + ":" + last)
  {
    if parts == [] {
      assert [p][1..] == [] && Join([], last) == last;
    } else {
      assert (parts + [p])[1..] == parts[1..] + [p];
      JoinSnoc(parts[1..], p, last);
    }
  }
}
