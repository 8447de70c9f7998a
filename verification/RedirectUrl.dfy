/** Where a click is sent: `buildRedirectUrl` merges the link's parameters and the request's into the
    query of the original URL, with `URLSearchParams.set` as section 6.2 of the URL Standard has it. */
module RedirectUrl {
  import opened Prelude

  datatype Pair = Pair(key: string, value: string)

  /** A parsed URL; `rest` is everything but its query. */
  datatype Url = Url(rest: string, query: seq<Pair>)

  /** The list without the pairs of one key. */
  function Without(l: seq<Pair>, key: string): (r: seq<Pair>)
    ensures |r| <= |l|
  {
    if l == [] then [] else (if l[0].key == key then [] else [l[0]]) + Without(l[1..], key)
  }

  /** `set`: the first pair of the key gets the value and the others go; a new key goes to the end. */
  function SetPair(l: seq<Pair>, p: Pair): seq<Pair> {
    if l == [] then [p]
    else if l[0].key == p.key then [p] + Without(l[1..], p.key)
    else [l[0]] + SetPair(l[1..], p)
  }

  function SetAll(l: seq<Pair>, ps: seq<Pair>): seq<Pair>
    decreases |ps|
  {
    if ps == [] then l else SetPair(SetAll(l, ps[..|ps| - 1]), ps[|ps| - 1])
  }

  /** Where the first pair of the key is at `i`, or nowhere. */
  lemma {:induction false} SetPairAt(l: seq<Pair>, p: Pair, i: nat)
    requires i <= |l| && (forall k :: 0 <= k < i ==> l[k].key != p.key) && (i < |l| ==> l[i].key == p.key)
    ensures SetPair(l, p) == if i == |l| then l + [p] else l[..i] + [p] + Without(l[i + 1..], p.key)
  {
    if i > 0 {
      SetPairAt(l[1..], p, i - 1);
      assert l == [l[0]] + l[1..];
    }
  }

  class SearchParams {
    var list: seq<Pair>

    constructor (list: seq<Pair>)
      ensures this.list == list
    {
      this.list := list;
    }

    method Set(p: Pair)
      modifies this
      ensures list == SetPair(old(list), p)
    {
      var i := 0;
      while i < |list| && list[i].key != p.key
        invariant 0 <= i <= |list|
        invariant forall k :: 0 <= k < i ==> list[k].key != p.key
      {
        i := i + 1;
      }
      SetPairAt(list, p, i);
      if i == |list| {
        list := list + [p];
      } else {
        list := list[..i] + [p] + Without(list[i + 1..], p.key);
      }
    }
  }

  datatype Redirect = Built(url: Url) | Original

  /** `parsed` is the original URL and `request` the query of the request, where they parse; if one
      does not, the visitor is sent to the original URL as it is. */
  method BuildRedirectUrl(parsed: Option<Url>, link: seq<Pair>, request: Option<seq<Pair>>) returns (redirect: Redirect)
    ensures redirect.Built? <==> parsed.Some? && request.Some?
    ensures redirect.Built? ==>
              redirect.url == Url(parsed.value.rest, SetAll(SetAll(parsed.value.query, link), request.value))
  {
    if parsed.None? { return Original; }
    var params := new SearchParams(parsed.value.query);
    for i := 0 to |link|
      invariant params.list == SetAll(parsed.value.query, link[..i])
    {
      assert link[..i + 1][..i] == link[..i];
      params.Set(link[i]);
    }
    assert link[..|link|] == link;
    if request.None? { return Original; }
    for i := 0 to |request.value|
      invariant params.list == SetAll(SetAll(parsed.value.query, link), request.value[..i])
    {
      assert request.value[..i + 1][..i] == request.value[..i];
      params.Set(request.value[i]);
    }
    assert request.value[..|request.value|] == request.value;
    redirect := Built(Url(parsed.value.rest, params.list));
  }

  // ---------------------------------------------------------------- what the query becomes

  /** The pairs of one key, in order. */
  function Only(l: seq<Pair>, key: string): seq<Pair> {
    if l == [] then [] else (if l[0].key == key then [l[0]] else []) + Only(l[1..], key)
  }

  function Keys(l: seq<Pair>): set<string> { set p | p in l :: p.key }

  /** The pairs whose key is not among the given. */
  function Others(l: seq<Pair>, keys: set<string>): seq<Pair> {
    if l == [] then [] else (if l[0].key in keys then [] else [l[0]]) + Others(l[1..], keys)
  }

  function LastValue(l: seq<Pair>, key: string): Option<string>
    decreases |l|
  {
    if l == [] then None
    else if l[|l| - 1].key == key then Some(l[|l| - 1].value)
    else LastValue(l[..|l| - 1], key)
  }

  /** The keys in the order in which they first occur. */
  function FirstKeys(l: seq<Pair>): seq<string>
    decreases |l|
  {
    if l == [] then [] else [l[0].key] + FirstKeys(Without(l[1..], l[0].key))
  }

  lemma OnlyCons(p: Pair, l: seq<Pair>, k: string)
    ensures Only([p] + l, k) == (if p.key == k then [p] else []) + Only(l, k)
  {
    assert ([p] + l)[1..] == l;
  }

  lemma OthersCons(p: Pair, l: seq<Pair>, keys: set<string>)
    ensures Others([p] + l, keys) == (if p.key in keys then [] else [p]) + Others(l, keys)
  {
    assert ([p] + l)[1..] == l;
  }

  lemma {:induction false} WithoutOnly(l: seq<Pair>, key: string, k: string)
    ensures Only(Without(l, key), k) == if k == key then [] else Only(l, k)
  {
    if l != [] {
      var w := Without(l[1..], key);
      WithoutOnly(l[1..], key, k);
      if l[0].key == key {
        assert Without(l, key) == w;
      } else {
        OnlyCons(l[0], w, k);
      }
    }
  }

  lemma {:induction false} WithoutOthers(l: seq<Pair>, key: string, keys: set<string>)
    requires key in keys
    ensures Others(Without(l, key), keys) == Others(l, keys)
  {
    if l != [] {
      var w := Without(l[1..], key);
      WithoutOthers(l[1..], key, keys);
      if l[0].key == key {
        assert Without(l, key) == w;
      } else {
        OthersCons(l[0], w, keys);
      }
    }
  }

  /** `set` leaves one pair of its key and touches no other key. */
  lemma {:induction false} SetPairOnly(l: seq<Pair>, p: Pair, k: string)
    ensures Only(SetPair(l, p), k) == if k == p.key then [p] else Only(l, k)
  {
    if l == [] {
      OnlyCons(p, [], k);
    } else if l[0].key == p.key {
      WithoutOnly(l[1..], p.key, k);
      OnlyCons(p, Without(l[1..], p.key), k);
    } else {
      SetPairOnly(l[1..], p, k);
      OnlyCons(l[0], SetPair(l[1..], p), k);
    }
  }

  lemma {:induction false} SetPairOthers(l: seq<Pair>, p: Pair, keys: set<string>)
    requires p.key in keys
    ensures Others(SetPair(l, p), keys) == Others(l, keys)
  {
    if l == [] {
      OthersCons(p, [], keys);
    } else if l[0].key == p.key {
      WithoutOthers(l[1..], p.key, keys);
      OthersCons(p, Without(l[1..], p.key), keys);
    } else {
      SetPairOthers(l[1..], p, keys);
      OthersCons(l[0], SetPair(l[1..], p), keys);
    }
  }

  lemma {:induction false} LastValueIff(ps: seq<Pair>, k: string)
    ensures LastValue(ps, k).Some? <==> k in Keys(ps)
    decreases |ps|
  {
    if ps != [] {
      var init, p := ps[..|ps| - 1], ps[|ps| - 1];
      assert ps == init + [p];
      LastValueIff(init, k);
    }
  }

  lemma {:induction false} SetAllOnly(l: seq<Pair>, ps: seq<Pair>, k: string)
    ensures var last := LastValue(ps, k);
            Only(SetAll(l, ps), k) == if last.Some? then [Pair(k, last.value)] else Only(l, k)
    decreases |ps|
  {
    if ps != [] {
      var init, p := ps[..|ps| - 1], ps[|ps| - 1];
      SetAllOnly(l, init, k);
      SetPairOnly(SetAll(l, init), p, k);
    }
  }

  lemma {:induction false} SetAllOthers(l: seq<Pair>, ps: seq<Pair>, keys: set<string>)
    requires forall p :: p in ps ==> p.key in keys
    ensures Others(SetAll(l, ps), keys) == Others(l, keys)
    decreases |ps|
  {
    if ps != [] {
      var init, p := ps[..|ps| - 1], ps[|ps| - 1];
      SetAllOthers(l, init, keys);
      SetPairOthers(SetAll(l, init), p, keys);
    }
  }

  // ---------------------------------------------------------------- the order

  lemma {:induction false} WithoutTwice(l: seq<Pair>, a: string, b: string)
    ensures Without(Without(l, a), b) == Without(Without(l, b), a)
    ensures a == b ==> Without(Without(l, a), b) == Without(l, a)
  {
    if l != [] {
      WithoutTwice(l[1..], a, b);
      var t := l[1..];
      assert ([l[0]] + Without(t, a))[1..] == Without(t, a);
      assert ([l[0]] + Without(t, b))[1..] == Without(t, b);
      assert [] + Without(t, a) == Without(t, a) && [] + Without(t, b) == Without(t, b);
    }
  }

  lemma {:induction false} WithoutSet(l: seq<Pair>, p: Pair, k: string)
    requires k != p.key
    ensures Without(SetPair(l, p), k) == SetPair(Without(l, k), p)
  {
    if l == [] {
      assert [p][1..] == [];
    } else {
      var t := l[1..];
      WithoutTwice(t, p.key, k);
      WithoutSet(t, p, k);
      assert ([p] + Without(t, p.key))[1..] == Without(t, p.key);
      assert ([l[0]] + SetPair(t, p))[1..] == SetPair(t, p);
      assert ([l[0]] + Without(t, k))[1..] == Without(t, k);
      assert [] + Without(t, k) == Without(t, k);
    }
  }

  lemma {:induction false} WithoutSnoc(l: seq<Pair>, p: Pair, k: string)
    ensures Without(l + [p], k) == Without(l, k) + if p.key == k then [] else [p]
  {
    if l == [] {
      assert [] + [p] == [p] && [p][1..] == [];
    } else {
      assert (l + [p])[1..] == l[1..] + [p];
      WithoutSnoc(l[1..], p, k);
    }
  }

  /** As far as first occurrences go, `set` does what appending would do. */
  lemma {:induction false} SetPairOrder(l: seq<Pair>, p: Pair)
    ensures FirstKeys(SetPair(l, p)) == FirstKeys(l + [p])
    decreases |l|
  {
    if l == [] {
      assert [] + [p] == [p];
    } else {
      var t, k := l[1..], l[0].key;
      assert (l + [p])[1..] == t + [p];
      WithoutSnoc(t, p, k);
      if k == p.key {
        WithoutTwice(t, k, k);
        assert ([p] + Without(t, k))[1..] == Without(t, k);
        assert Without(t, k) + [] == Without(t, k);
      } else {
        WithoutSet(t, p, k);
        SetPairOrder(Without(t, k), p);
        assert ([l[0]] + SetPair(t, p))[1..] == SetPair(t, p);
      }
    }
  }

  lemma {:induction false} FirstKeysSnoc(l: seq<Pair>, p: Pair)
    ensures FirstKeys(l + [p]) == FirstKeys(l) + if p.key in FirstKeys(l) then [] else [p.key]
    decreases |l|
  {
    if l == [] {
      assert [] + [p] == [p];
    } else {
      var t, k := l[1..], l[0].key;
      assert (l + [p])[1..] == t + [p];
      WithoutSnoc(t, p, k);
      if k == p.key {
        assert Without(t, k) + [] == Without(t, k);
      } else {
        FirstKeysSnoc(Without(t, k), p);
      }
    }
  }

  lemma {:induction false} SetAllOrder(l: seq<Pair>, ps: seq<Pair>)
    ensures FirstKeys(SetAll(l, ps)) == FirstKeys(l + ps)
    decreases |ps|
  {
    if ps == [] {
      assert l + ps == l;
    } else {
      var init, p := ps[..|ps| - 1], ps[|ps| - 1];
      SetAllOrder(l, init);
      SetPairOrder(SetAll(l, init), p);
      FirstKeysSnoc(SetAll(l, init), p);
      FirstKeysSnoc(l + init, p);
      assert l + ps == l + init + [p];
    }
  }

  lemma {:induction false} FirstKeysConcat(a: seq<Pair>, b: seq<Pair>, c: seq<Pair>)
    requires FirstKeys(a) == FirstKeys(b)
    ensures FirstKeys(a + c) == FirstKeys(b + c)
    decreases |c|
  {
    if c == [] {
      assert a + c == a && b + c == b;
    } else {
      var init, p := c[..|c| - 1], c[|c| - 1];
      FirstKeysConcat(a, b, init);
      FirstKeysSnoc(a + init, p);
      FirstKeysSnoc(b + init, p);
      assert a + c == a + init + [p] && b + c == b + init + [p];
    }
  }

  /** The merge: a key that the request or the link names occurs once, with the request's last value
      if it has one and else the link's; all other pairs keep their values, their number and their
      order; and keys appear in the order in which the original, the link and the request name them. */
  lemma MergedQuery(original: seq<Pair>, link: seq<Pair>, request: seq<Pair>)
    ensures var merged := SetAll(SetAll(original, link), request);
            && (forall k :: k in Keys(request) ==>
                  LastValue(request, k).Some? && Only(merged, k) == [Pair(k, LastValue(request, k).value)])
            && (forall k :: k in Keys(link) && k !in Keys(request) ==>
                  LastValue(link, k).Some? && Only(merged, k) == [Pair(k, LastValue(link, k).value)])
            && Others(merged, Keys(link) + Keys(request)) == Others(original, Keys(link) + Keys(request))
            && FirstKeys(merged) == FirstKeys(original + link + request)
  {
    var merged := SetAll(SetAll(original, link), request);
    forall k
      ensures k in Keys(request) ==>
                LastValue(request, k).Some? && Only(merged, k) == [Pair(k, LastValue(request, k).value)]
      ensures k in Keys(link) && k !in Keys(request) ==>
                LastValue(link, k).Some? && Only(merged, k) == [Pair(k, LastValue(link, k).value)]
    {
      LastValueIff(link, k);
      LastValueIff(request, k);
      SetAllOnly(original, link, k);
      SetAllOnly(SetAll(original, link), request, k);
    }
    var keys := Keys(link) + Keys(request);
    assert forall p :: p in link ==> p.key in Keys(link);
    assert forall p :: p in request ==> p.key in Keys(request);
    SetAllOthers(original, link, keys);
    SetAllOthers(SetAll(original, link), request, keys);
    SetAllOrder(original, link);
    SetAllOrder(SetAll(original, link), request);
    FirstKeysConcat(SetAll(original, link), original + link, request);
  }
}
