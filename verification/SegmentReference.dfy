/** The search for a segment reference in a campaign's steps, and the audience strategy that
    depends on it. Steps are a JSON-like object graph that may share nodes and contain cycles. */
module SegmentReference {
  import opened Prelude

  type Ref = nat

  /** An object or array: its two candidate fields when they hold a string, and the objects among
      its items or property values, in order. */
  datatype Obj = Obj(segment_id: Option<string>, segmentId: Option<string>, children: seq<Ref>)

  type Graph = g: map<Ref, Obj> | Closed(g)

  predicate Closed(g: map<Ref, Obj>) {
    forall n :: n in g ==> forall c :: c in g[n].children ==> c in g
  }

  predicate NonEmpty(s: Option<string>) { s.Some? && |s.value| > 0 }

  predicate Carries(o: Obj) { NonEmpty(o.segment_id) || NonEmpty(o.segmentId) }

  /** The snake-case field wins when both are present. */
  function IdOf(o: Obj): (id: string)
    requires Carries(o)
    ensures id != "" && if o.segment_id.Some? && o.segment_id.value != "" then Some(id) == o.segment_id else Some(id) == o.segmentId
  {
    if NonEmpty(o.segment_id) then o.segment_id.value else o.segmentId.value
  }

  function ChildrenOf(g: Graph, ns: set<Ref>): (cs: set<Ref>)
    ensures forall c :: c in cs ==> c in g
  {
    set n, c | n in ns && n in g && c in g[n].children :: c
  }

  /** The nodes at distance at most `k` from `root`. */
  function Within(g: Graph, root: Ref, k: nat): (ns: set<Ref>)
    requires root in g
    ensures ns <= g.Keys
  {
    if k == 0 then {root} else Within(g, root, k - 1) + ChildrenOf(g, Within(g, root, k - 1))
  }

  ghost predicate Reachable(g: Graph, root: Ref, n: Ref)
    requires root in g
  {
    exists k: nat :: n in Within(g, root, k)
  }

  /** `id` belongs to a node at distance exactly `k`, and no node closer to the root carries one. */
  predicate Nearest(g: Graph, root: Ref, k: nat, n: Ref)
    requires root in g
  {
    && n in Within(g, root, k) && Carries(g[n])
    && (k > 0 ==> forall m :: m in Within(g, root, k - 1) ==> !Carries(g[m]))
  }

  /** Some node reachable from the steps carries an id. */
  ghost predicate HasReference(g: Graph, steps: Option<Ref>)
    requires steps.Some? ==> steps.value in g
  {
    steps.Some? && exists n :: n in g && Reachable(g, steps.value, n) && Carries(g[n])
  }

  lemma Found(g: Graph, root: Ref, k: nat, n: Ref)
    requires root in g && Nearest(g, root, k, n)
    ensures HasReference(g, Some(root))
  {
    assert Reachable(g, root, n);
  }

  lemma {:induction false} WithinClosedSet(g: Graph, root: Ref, s: set<Ref>, k: nat)
    requires root in g && root in s && ChildrenOf(g, s) <= s
    ensures Within(g, root, k) <= s
  {
    if k > 0 {
      WithinClosedSet(g, root, s, k - 1);
      forall c | c in ChildrenOf(g, Within(g, root, k - 1)) ensures c in s {
        assert c in ChildrenOf(g, s);
      }
    }
  }

  ghost predicate Covers(visited: set<Ref>, queue: seq<Ref>, ns: set<Ref>) {
    forall n :: n in ns ==> n in visited || n in queue
  }

  /** The state of the search: `queue[..near]` is what is left of the layer at `depth`, the rest of
      the queue belongs to the layer below, and everything closer has been visited. */
  ghost predicate Layered(g: Graph, root: Ref, visited: set<Ref>, queue: seq<Ref>, near: nat, depth: nat)
    requires root in g
  {
    && near <= |queue|
    && visited <= Within(g, root, depth)
    && (forall n :: n in visited ==> !Carries(g[n]))
    && (forall i :: 0 <= i < near ==> queue[i] in Within(g, root, depth))
    && (forall i :: near <= i < |queue| ==> queue[i] in Within(g, root, depth + 1))
    && Covers(visited, queue[..near], Within(g, root, depth))
    && Covers(visited, queue, ChildrenOf(g, visited))
    && (depth > 0 ==> Within(g, root, depth - 1) <= visited)
  }

  lemma NextLayer(g: Graph, root: Ref, visited: set<Ref>, queue: seq<Ref>, depth: nat)
    requires root in g && Layered(g, root, visited, queue, 0, depth)
    ensures Layered(g, root, visited, queue, |queue|, depth + 1)
  {
    assert Within(g, root, depth) <= visited;
    assert queue[..|queue|] == queue;
    forall n | n in Within(g, root, depth + 1) ensures n in visited || n in queue {
      if n !in Within(g, root, depth) { assert n in ChildrenOf(g, visited); }
    }
  }

  lemma Start(g: Graph, root: Ref)
    requires root in g
    ensures Layered(g, root, {}, [root], 1, 0)
  {
    assert [root][..1] == [root];
  }

  /** Where the front of the queue stands. */
  lemma Front(g: Graph, root: Ref, visited: set<Ref>, queue: seq<Ref>, near: nat, depth: nat)
    returns (n: nat, d: nat)
    requires root in g && Layered(g, root, visited, queue, near, depth) && |queue| > 0
    ensures n > 0 && Layered(g, root, visited, queue, n, d)
    ensures queue[0] in Within(g, root, d) && queue[0] in g
    ensures Carries(g[queue[0]]) ==> queue[0] !in visited && Nearest(g, root, d, queue[0])
  {
    n, d := near, depth;
    if near == 0 {
      NextLayer(g, root, visited, queue, depth);
      n, d := |queue|, depth + 1;
    }
  }

  /** One turn of the loop on a node that carries no id. */
  ghost function Seen(visited: set<Ref>, node: Ref): set<Ref> { visited + {node} }

  ghost function Rest(g: Graph, visited: set<Ref>, queue: seq<Ref>): seq<Ref>
    requires |queue| > 0 && queue[0] in g
  {
    if queue[0] in visited then queue[1..] else queue[1..] + g[queue[0]].children
  }

  lemma Turn(g: Graph, root: Ref, visited: set<Ref>, queue: seq<Ref>, near: nat, depth: nat)
    requires root in g && Layered(g, root, visited, queue, near, depth) && near > 0
    requires queue[0] in g && !Carries(g[queue[0]])
    ensures Layered(g, root, Seen(visited, queue[0]), Rest(g, visited, queue), near - 1, depth)
  {
    if queue[0] in visited {
      assert Seen(visited, queue[0]) == visited;
      Skip(g, root, visited, queue, near, depth);
    } else {
      Visit(g, root, visited, queue, near, depth);
    }
  }

  lemma Skip(g: Graph, root: Ref, visited: set<Ref>, queue: seq<Ref>, near: nat, depth: nat)
    requires root in g && Layered(g, root, visited, queue, near, depth) && near > 0 && queue[0] in visited
    ensures Layered(g, root, visited, queue[1..], near - 1, depth)
  {
    var rest := queue[1..];
    assert forall i :: 0 <= i < |rest| ==> rest[i] == queue[i + 1];
    assert queue[..near] == [queue[0]] + rest[..near - 1] && queue == [queue[0]] + rest;
  }

  lemma Visit(g: Graph, root: Ref, visited: set<Ref>, queue: seq<Ref>, near: nat, depth: nat)
    requires root in g && Layered(g, root, visited, queue, near, depth) && near > 0
    requires queue[0] in g && !Carries(g[queue[0]])
    ensures Layered(g, root, visited + {queue[0]}, queue[1..] + g[queue[0]].children, near - 1, depth)
  {
    var node := queue[0];
    var rest, kids := queue[1..], g[node].children;
    assert forall i :: 0 <= i < |rest| ==> rest[i] == queue[i + 1];
    assert queue[..near] == [node] + rest[..near - 1] && queue == [node] + rest;
    assert (rest + kids)[..near - 1] == rest[..near - 1];
    forall c | c in ChildrenOf(g, visited + {node}) ensures c in visited + {node} || c in rest + kids {
      if c !in ChildrenOf(g, visited) { assert c in kids; }
    }
    forall c | c in kids ensures c in Within(g, root, depth + 1) {
      assert c in ChildrenOf(g, Within(g, root, depth));
    }
    forall i | near - 1 <= i < |rest + kids| ensures (rest + kids)[i] in Within(g, root, depth + 1) {
      if i >= |rest| { assert (rest + kids)[i] in kids; }
    }
  }

  lemma Exhausted(g: Graph, root: Ref, visited: set<Ref>, depth: nat)
    requires root in g && Layered(g, root, visited, [], 0, depth)
    ensures !HasReference(g, Some(root))
  {
    assert ChildrenOf(g, visited) <= visited;
    WithinMonotone(g, root, depth);
    forall n, k: nat | n in Within(g, root, k) ensures !Carries(g[n]) {
      WithinClosedSet(g, root, visited, k);
    }
  }

  lemma {:induction false} WithinMonotone(g: Graph, root: Ref, k: nat)
    requires root in g
    ensures root in Within(g, root, k)
  {
    if k > 0 { WithinMonotone(g, root, k - 1); }
  }

  /** `extractSegmentId`: breadth-first over the object graph. The answer is absent exactly when no
      reachable node carries an id, and otherwise it is the id of a node nearest to the root. */
  method ExtractSegmentId(g: Graph, steps: Option<Ref>)
    returns (id: Option<string>, ghost depth: nat, ghost at: Ref)
    requires steps.Some? ==> steps.value in g
    ensures id.Some? <==> HasReference(g, steps)
    ensures id.Some? ==> Nearest(g, steps.value, depth, at) && id.value == IdOf(g[at])
    ensures id.Some? ==> id.value != "" && (if HasText(g[at].segment_id) then id == g[at].segment_id else id == g[at].segmentId)
  {
    depth, at := 0, 0;
    if steps.None? { return None, 0, 0; }
    var root := steps.value;
    var queue := [root];
    var visited: set<Ref> := {};
    ghost var near: nat := 1;
    Start(g, root);
    while |queue| > 0
      invariant Layered(g, root, visited, queue, near, depth)
      decreases g.Keys - visited, |queue|
    {
      near, depth := Front(g, root, visited, queue, near, depth);
      var node := queue[0];
      if node !in visited && Carries(g[node]) {
        Found(g, root, depth, node);
        return Some(IdOf(g[node])), depth, node;
      }
      Turn(g, root, visited, queue, near, depth);
      near := near - 1;
      if node in visited {
        queue := queue[1..];
        continue;
      }
      visited := visited + {node};
      queue := queue[1..] + g[node].children;
    }
    Exhausted(g, root, visited, depth);
    id := None;
  }

  // ---------------------------------------------------------------- paths

  /** The field is a string that is not empty. */
  predicate HasText(field: Option<string>) { field.Some? && field.value != "" }

  /** The nodes of `p` lead from `root` to `n`, each one a child of the one before. */
  ghost predicate Leads(g: Graph, root: Ref, p: seq<Ref>, n: Ref) {
    && p != [] && p[0] == root && p[|p| - 1] == n
    && (forall i :: 0 <= i < |p| ==> p[i] in g)
    && forall i :: 0 <= i < |p| - 1 ==> p[i + 1] in g[p[i]].children
  }

  lemma {:induction false} PathWithin(g: Graph, root: Ref, k: nat, n: Ref) returns (p: seq<Ref>)
    requires root in g && n in Within(g, root, k)
    ensures Leads(g, root, p, n) && |p| <= k + 1
  {
    if k == 0 {
      p := [root];
    } else if n in Within(g, root, k - 1) {
      p := PathWithin(g, root, k - 1, n);
    } else {
      var m :| m in Within(g, root, k - 1) && n in g[m].children;
      var q := PathWithin(g, root, k - 1, m);
      p := q + [n];
    }
  }

  lemma {:induction false} WithinOfPath(g: Graph, root: Ref, p: seq<Ref>, n: Ref, k: nat)
    requires root in g && Leads(g, root, p, n) && |p| <= k + 1
    ensures n in Within(g, root, k)
    decreases |p|
  {
    if |p| == 1 {
      WithinMonotone(g, root, k);
    } else {
      var q := p[..|p| - 1];
      WithinOfPath(g, root, q, q[|q| - 1], k - 1);
      assert n in ChildrenOf(g, Within(g, root, k - 1));
    }
  }

  /** A reference is found exactly if some path from the root leads to a node with one of the two fields
      not empty. */
  lemma ReferenceIffPath(g: Graph, root: Ref)
    requires root in g
    ensures HasReference(g, Some(root)) <==>
              exists p, n :: Leads(g, root, p, n) && (HasText(g[n].segment_id) || HasText(g[n].segmentId))
  {
    if HasReference(g, Some(root)) {
      var n :| n in g && Reachable(g, root, n) && Carries(g[n]);
      var k: nat :| n in Within(g, root, k);
      var p := PathWithin(g, root, k, n);
      assert Leads(g, root, p, n);
    }
    if p, n :| Leads(g, root, p, n) && (HasText(g[n].segment_id) || HasText(g[n].segmentId)) {
      WithinOfPath(g, root, p, n, |p| - 1);
      assert Reachable(g, root, n);
    }
  }

  /** The node that is found lies at the end of a shortest path to any such node. */
  lemma NearestIsShortest(g: Graph, root: Ref, depth: nat, at: Ref)
    requires root in g && Nearest(g, root, depth, at)
    ensures exists p :: Leads(g, root, p, at) && |p| <= depth + 1
    ensures forall p, n :: Leads(g, root, p, n) && (HasText(g[n].segment_id) || HasText(g[n].segmentId)) ==> |p| >= depth + 1
  {
    var q := PathWithin(g, root, depth, at);
    forall p, n | Leads(g, root, p, n) && (HasText(g[n].segment_id) || HasText(g[n].segmentId)) ensures |p| >= depth + 1 {
      if |p| <= depth { WithinOfPath(g, root, p, n, depth - 1); }
    }
  }

  // ---------------------------------------------------------------- the strategy

  datatype Campaign = Campaign(
    sendToAll: bool,
    triggerSegment: Option<string>,
    steps: Option<Ref>,
    tags: seq<string>,
    query: string)

  datatype Query = All | Segment(id: string) | Tags(tags: seq<string>) | Sql(text: string)

  /** `analyzeSegmentationStrategy`. A segment is chosen from the steps exactly when one is reachable
      there and nothing earlier applies; tags, SQL and the default follow exactly when none is. */
  method AnalyzeSegmentationStrategy(g: Graph, campaign: Campaign)
    returns (query: Query, ghost depth: nat, ghost at: Ref)
    requires campaign.steps.Some? ==> campaign.steps.value in g
    ensures campaign.sendToAll ==> query == All
    ensures !campaign.sendToAll && HasText(campaign.triggerSegment) ==>
              query == Segment(campaign.triggerSegment.value)
    ensures !campaign.sendToAll && !HasText(campaign.triggerSegment) ==>
              && (HasReference(g, campaign.steps) ==>
                    && Nearest(g, campaign.steps.value, depth, at)
                    && query == Segment(IdOf(g[at])))
              && (!HasReference(g, campaign.steps) ==>
                    query == if |campaign.tags| > 0 then Tags(campaign.tags)
                             else if |campaign.query| > 0 then Sql(campaign.query) else All)
  {
    depth, at := 0, 0;
    if campaign.sendToAll { return All, 0, 0; }
    if NonEmpty(campaign.triggerSegment) { return Segment(campaign.triggerSegment.value), 0, 0; }
    // `hasSegmentReference` runs the search once, `extractSegmentId` runs it again.
    var found, _, _ := ExtractSegmentId(g, campaign.steps);
    if found.Some? {
      var id, d, n := ExtractSegmentId(g, campaign.steps);
      return Segment(id.value), d, n;
    }
    if |campaign.tags| > 0 { return Tags(campaign.tags), 0, 0; }
    if |campaign.query| > 0 { return Sql(campaign.query), 0, 0; }
    query := All;
  }
}
