/** The depth-first order in which a trace's messages are flattened, as a sequence of visits: every
    message of every node is visited exactly once. */
module TraceWalk {
  import opened ChainTx
  import opened Sorting
  import opened TraceTree

  /** Children come after their parents. */
  ghost predicate Forward(nodes: seq<TraceNode>) {
    forall v, c: nat :: ChildOf(nodes, v, c) ==> v.node < c < |nodes|
  }

  lemma TreeIsForward(nodes: seq<TraceNode>, parents: seq<Visit>)
    requires Tree(nodes, parents)
    ensures Forward(nodes)
  {
    forall v, c: nat | ChildOf(nodes, v, c) ensures v.node < c < |nodes| {
      assert Hangs(nodes, parents, v, c);
    }
  }

  ghost function Child(nodes: seq<TraceNode>, v: Visit): (c: nat)
    requires Forward(nodes) && HasChild(nodes, v)
    ensures ChildOf(nodes, v, c) && v.node < c < |nodes|
  {
    assert ChildOf(nodes, v, nodes[v.node].children[v.message]);
    nodes[v.node].children[v.message]
  }

  /** The messages of node `i` from the `m`-th on, each followed by all it caused. */
  ghost function Walk(nodes: seq<TraceNode>, i: nat, m: nat): seq<Visit>
    requires Forward(nodes) && i < |nodes| && m <= |nodes[i].tx.outMsgs|
    decreases |nodes| - i, |nodes[i].tx.outMsgs| - m
  {
    if m == |nodes[i].tx.outMsgs| then []
    else [Visit(i, m)] + Below(nodes, Visit(i, m)) + Walk(nodes, i, m + 1)
  }

  ghost function Below(nodes: seq<TraceNode>, v: Visit): seq<Visit>
    requires Forward(nodes) && IsMessage(nodes, v)
    decreases |nodes| - v.node, 0
  {
    if HasChild(nodes, v) then Walk(nodes, Child(nodes, v), 0) else []
  }

  /** How often a walk visits a message. */
  ghost function Visits(nodes: seq<TraceNode>, i: nat, m: nat, v: Visit): nat
    requires Forward(nodes) && i < |nodes| && m <= |nodes[i].tx.outMsgs|
    decreases |nodes| - i, |nodes[i].tx.outMsgs| - m
  {
    if m == |nodes[i].tx.outMsgs| then 0
    else (if v == Visit(i, m) then 1 else 0) + VisitsBelow(nodes, Visit(i, m), v) + Visits(nodes, i, m + 1, v)
  }

  ghost function VisitsBelow(nodes: seq<TraceNode>, u: Visit, v: Visit): nat
    requires Forward(nodes) && IsMessage(nodes, u)
    decreases |nodes| - u.node, 0
  {
    if HasChild(nodes, u) then Visits(nodes, Child(nodes, u), 0, v) else 0
  }

  ghost function Count(walk: seq<Visit>, v: Visit): nat {
    multiset(walk)[v]
  }

  lemma {:induction false} WalkCounts(nodes: seq<TraceNode>, i: nat, m: nat, v: Visit)
    requires Forward(nodes) && i < |nodes| && m <= |nodes[i].tx.outMsgs|
    ensures Count(Walk(nodes, i, m), v) == Visits(nodes, i, m, v)
    decreases |nodes| - i, |nodes[i].tx.outMsgs| - m
  {
    if m < |nodes[i].tx.outMsgs| {
      var here := Visit(i, m);
      BelowCounts(nodes, here, v);
      WalkCounts(nodes, i, m + 1, v);
      HeadCounts(here, Below(nodes, here), Walk(nodes, i, m + 1), v);
    }
  }

  lemma {:induction false} BelowCounts(nodes: seq<TraceNode>, u: Visit, v: Visit)
    requires Forward(nodes) && IsMessage(nodes, u)
    ensures Count(Below(nodes, u), v) == VisitsBelow(nodes, u, v)
    decreases |nodes| - u.node, 0
  {
    if HasChild(nodes, u) { WalkCounts(nodes, Child(nodes, u), 0, v); }
  }

  lemma HeadCounts(here: Visit, below: seq<Visit>, after: seq<Visit>, v: Visit)
    ensures Count([here] + below + after, v) == (if v == here then 1 else 0) + Count(below, v) + Count(after, v)
  {
    ThreeParts([here], below, after, v);
  }

  lemma ThreeParts(a: seq<Visit>, b: seq<Visit>, c: seq<Visit>, v: Visit)
    ensures Count(a + b + c, v) == Count(a, v) + Count(b, v) + Count(c, v)
  {
    assert multiset(a + b + c) == multiset(a) + multiset(b) + multiset(c);
  }

  /** Nothing before the starting message is visited, and nothing that is no message. */
  lemma {:induction false} WalkStaysBelow(nodes: seq<TraceNode>, i: nat, m: nat, v: Visit)
    requires Forward(nodes) && i < |nodes| && m <= |nodes[i].tx.outMsgs|
    requires v.node < i || (v.node == i && v.message < m) || !IsMessage(nodes, v)
    ensures Visits(nodes, i, m, v) == 0
    decreases |nodes| - i, |nodes[i].tx.outMsgs| - m
  {
    if m < |nodes[i].tx.outMsgs| {
      if HasChild(nodes, Visit(i, m)) { WalkStaysBelow(nodes, Child(nodes, Visit(i, m)), 0, v); }
      WalkStaysBelow(nodes, i, m + 1, v);
    }
  }

  /** A node's own messages are visited once by its walk. */
  lemma {:induction false} WalkVisitsOwn(nodes: seq<TraceNode>, i: nat, m: nat, k: nat)
    requires Forward(nodes) && i < |nodes| && m <= k < |nodes[i].tx.outMsgs|
    ensures Visits(nodes, i, m, Visit(i, k)) == 1
    decreases k - m
  {
    if HasChild(nodes, Visit(i, m)) { WalkStaysBelow(nodes, Child(nodes, Visit(i, m)), 0, Visit(i, k)); }
    if m == k {
      WalkStaysBelow(nodes, i, m + 1, Visit(i, k));
    } else {
      WalkVisitsOwn(nodes, i, m + 1, k);
    }
  }

  /** A later node's messages are visited as often as the message it hangs on. */
  lemma {:induction false} WalkEnters(nodes: seq<TraceNode>, parents: seq<Visit>, i: nat, m: nat, v: Visit)
    requires Tree(nodes, parents) && Forward(nodes)
    requires i < v.node && IsMessage(nodes, v) && m <= |nodes[i].tx.outMsgs|
    ensures Visits(nodes, i, m, v) == Visits(nodes, i, m, parents[v.node])
    decreases |nodes| - i, |nodes[i].tx.outMsgs| - m
  {
    var j, p := v.node, parents[v.node];
    assert ChildOf(nodes, p, j) && Hangs(nodes, parents, p, j);
    if m < |nodes[i].tx.outMsgs| {
      var here := Visit(i, m);
      WalkEnters(nodes, parents, i, m + 1, v);
      if HasChild(nodes, here) {
        var c := Child(nodes, here);
        assert Hangs(nodes, parents, here, c);
        if c == j {
          WalkVisitsOwn(nodes, j, 0, v.message);
          WalkStaysBelow(nodes, j, 0, p);
        } else if c < j {
          WalkEnters(nodes, parents, c, 0, v);
        } else {
          WalkStaysBelow(nodes, c, 0, v);
          WalkStaysBelow(nodes, c, 0, p);
        }
      }
    }
  }

  /** Every message of every node is visited exactly once. */
  lemma {:induction false} VisitedOnce(nodes: seq<TraceNode>, parents: seq<Visit>, v: Visit)
    requires Tree(nodes, parents) && Forward(nodes) && IsMessage(nodes, v)
    ensures Visits(nodes, 0, 0, v) == 1
    decreases v.node
  {
    if v.node == 0 {
      WalkVisitsOwn(nodes, 0, 0, v.message);
    } else {
      assert ChildOf(nodes, parents[v.node], v.node) && Hangs(nodes, parents, parents[v.node], v.node);
      WalkEnters(nodes, parents, 0, 0, v);
      VisitedOnce(nodes, parents, parents[v.node]);
    }
  }

  // ----- the same visits, row by row -----

  function Row(i: nat, n: nat): (r: seq<Visit>)
    ensures |r| == n && forall m :: 0 <= m < n ==> r[m] == Visit(i, m)
  {
    seq(n, m requires 0 <= m < n => Visit(i, m))
  }

  /** The messages of the first `n` nodes. */
  function Rows(nodes: seq<TraceNode>, n: nat): seq<Visit>
    requires n <= |nodes|
  {
    if n == 0 then [] else Rows(nodes, n - 1) + Row(n - 1, |nodes[n - 1].tx.outMsgs|)
  }

  lemma {:induction false} RowCount(i: nat, n: nat, v: Visit)
    ensures Count(Row(i, n), v) == if v.node == i && v.message < n then 1 else 0
  {
    if n > 0 {
      RowCount(i, n - 1, v);
      assert Row(i, n) == Row(i, n - 1) + [Visit(i, n - 1)];
    }
  }

  lemma {:induction false} RowsCount(nodes: seq<TraceNode>, n: nat, v: Visit)
    requires n <= |nodes|
    ensures Count(Rows(nodes, n), v) == if v.node < n && IsMessage(nodes, v) then 1 else 0
  {
    if n > 0 {
      RowsCount(nodes, n - 1, v);
      RowCount(n - 1, |nodes[n - 1].tx.outMsgs|, v);
    }
  }

  /** The depth-first walk is a rearrangement of all messages. */
  lemma WalkIsAll(nodes: seq<TraceNode>, parents: seq<Visit>)
    requires Tree(nodes, parents) && Forward(nodes)
    ensures multiset(Walk(nodes, 0, 0)) == multiset(Rows(nodes, |nodes|))
  {
    var a, b := multiset(Walk(nodes, 0, 0)), multiset(Rows(nodes, |nodes|));
    forall v ensures a[v] == b[v] {
      WalkCounts(nodes, 0, 0, v);
      RowsCount(nodes, |nodes|, v);
      if IsMessage(nodes, v) { VisitedOnce(nodes, parents, v); } else { WalkStaysBelow(nodes, 0, 0, v); }
    }
  }

  // ----- the nodes entered -----

  /** The nodes a sequence of visits descends into. */
  ghost function Entered(nodes: seq<TraceNode>, walk: seq<Visit>): seq<nat> {
    if walk == [] then []
    else (if HasChild(nodes, walk[0]) then [nodes[walk[0].node].children[walk[0].message]] else []) + Entered(nodes, walk[1..])
  }

  lemma {:induction false} EnteredCount(nodes: seq<TraceNode>, parents: seq<Visit>, walk: seq<Visit>, c: nat)
    requires Tree(nodes, parents)
    ensures multiset(Entered(nodes, walk))[c] == if 0 < c < |nodes| then Count(walk, parents[c]) else 0
  {
    if walk != [] {
      var v := walk[0];
      EnteredCount(nodes, parents, walk[1..], c);
      assert walk == [v] + walk[1..];
      if HasChild(nodes, v) {
        var d := nodes[v.node].children[v.message];
        assert ChildOf(nodes, v, d);
        assert Hangs(nodes, parents, v, d);
      }
      if 0 < c < |nodes| { assert ChildOf(nodes, parents[c], c); }
    }
  }

  function Range(n: nat): (r: seq<nat>)
    ensures |r| == n && forall i :: 0 <= i < n ==> r[i] == i + 1
  {
    seq(n, i requires 0 <= i < n => i + 1)
  }

  lemma {:induction false} RangeCount(n: nat, c: nat)
    ensures multiset(Range(n))[c] == if 0 < c <= n then 1 else 0
  {
    if n > 0 {
      RangeCount(n - 1, c);
      assert Range(n) == Range(n - 1) + [n];
    }
  }

  lemma EntersOnce(nodes: seq<TraceNode>, parents: seq<Visit>, c: nat)
    requires Tree(nodes, parents) && Forward(nodes) && 0 < c < |nodes|
    ensures Count(Walk(nodes, 0, 0), parents[c]) == 1
  {
    assert ChildOf(nodes, parents[c], c) && Hangs(nodes, parents, parents[c], c);
    VisitedOnce(nodes, parents, parents[c]);
    WalkCounts(nodes, 0, 0, parents[c]);
  }

  lemma EnteredAre(nodes: seq<TraceNode>, parents: seq<Visit>, walk: seq<Visit>)
    requires Tree(nodes, parents) && forall c :: 0 < c < |nodes| ==> Count(walk, parents[c]) == 1
    ensures multiset(Entered(nodes, walk)) == multiset(Range(|nodes| - 1))
  {
    var a, b := multiset(Entered(nodes, walk)), multiset(Range(|nodes| - 1));
    forall c: nat ensures a[c] == b[c] {
      EnteredOnceAt(nodes, parents, walk, c);
    }
    SameCounts(a, b);
  }

  lemma EnteredOnceAt(nodes: seq<TraceNode>, parents: seq<Visit>, walk: seq<Visit>, c: nat)
    requires Tree(nodes, parents) && (0 < c < |nodes| ==> Count(walk, parents[c]) == 1)
    ensures multiset(Entered(nodes, walk))[c] == multiset(Range(|nodes| - 1))[c]
  {
    EnteredCount(nodes, parents, walk, c);
    RangeCount(|nodes| - 1, c);
  }

  lemma SameCounts(a: multiset<nat>, b: multiset<nat>)
    requires forall c: nat :: a[c] == b[c]
    ensures a == b
  {}

  /** The walk enters every node but the first, once. */
  lemma WalkEntersAll(nodes: seq<TraceNode>, parents: seq<Visit>)
    requires Tree(nodes, parents) && Forward(nodes)
    ensures multiset(Entered(nodes, Walk(nodes, 0, 0))) == multiset(Range(|nodes| - 1))
  {
    forall c | 0 < c < |nodes| ensures Count(Walk(nodes, 0, 0), parents[c]) == 1 {
      EntersOnce(nodes, parents, c);
    }
    EnteredAre(nodes, parents, Walk(nodes, 0, 0));
  }

  // ----- the order of the walk -----

  /** Where the walk of a node's messages starts. */
  lemma WalkStarts(nodes: seq<TraceNode>, i: nat, m: nat)
    requires Forward(nodes) && i < |nodes| && m < |nodes[i].tx.outMsgs|
    ensures Walk(nodes, i, m) != [] && Walk(nodes, i, m)[0] == Visit(i, m)
  {}

  /** Depth first: right after a message come the messages of the transaction it caused, from its first. */
  lemma {:induction false} EffectFollowsCause(nodes: seq<TraceNode>, i: nat, m: nat, k: nat)
    requires Forward(nodes) && i < |nodes| && m <= |nodes[i].tx.outMsgs| && k < |Walk(nodes, i, m)|
    requires HasChild(nodes, Walk(nodes, i, m)[k]) && nodes[Child(nodes, Walk(nodes, i, m)[k])].tx.outMsgs != []
    ensures k + 1 < |Walk(nodes, i, m)| && Walk(nodes, i, m)[k + 1] == Visit(Child(nodes, Walk(nodes, i, m)[k]), 0)
    decreases |nodes| - i, |nodes[i].tx.outMsgs| - m
  {
    var walk, here := Walk(nodes, i, m), Visit(i, m);
    var below, after := Below(nodes, here), Walk(nodes, i, m + 1);
    assert walk == [here] + below + after;
    if k == 0 {
      WalkStarts(nodes, Child(nodes, here), 0);
      assert walk[1] == below[0];
    } else if k <= |below| {
      assert walk[k] == below[k - 1];
      EffectFollowsCause(nodes, Child(nodes, here), 0, k - 1);
      assert walk[k + 1] == below[k];
    } else {
      assert walk[k] == after[k - 1 - |below|];
      EffectFollowsCause(nodes, i, m + 1, k - 1 - |below|);
      assert walk[k + 1] == after[k - |below|];
    }
  }

  /** A node's own messages are visited in their order. */
  lemma {:induction false} SiblingsInOrder(nodes: seq<TraceNode>, i: nat, m: nat, k: nat, l: nat)
    requires Forward(nodes) && i < |nodes| && m <= |nodes[i].tx.outMsgs| && k < l < |Walk(nodes, i, m)|
    requires Walk(nodes, i, m)[k].node == i == Walk(nodes, i, m)[l].node
    ensures Walk(nodes, i, m)[k].message < Walk(nodes, i, m)[l].message
    decreases |nodes[i].tx.outMsgs| - m
  {
    var walk, here := Walk(nodes, i, m), Visit(i, m);
    var below, after := Below(nodes, here), Walk(nodes, i, m + 1);
    assert walk == [here] + below + after;
    BelowIsLater(nodes, here);
    assert forall q :: 1 <= q <= |below| ==> walk[q] == below[q - 1] && walk[q].node > i;
    assert l > |below|;
    assert walk[l] == after[l - 1 - |below|];
    if k == 0 {
      NotBefore(nodes, i, m + 1, l - 1 - |below|);
    } else {
      assert k > |below|;
      assert walk[k] == after[k - 1 - |below|];
      SiblingsInOrder(nodes, i, m + 1, k - 1 - |below|, l - 1 - |below|);
    }
  }

  lemma NotBefore(nodes: seq<TraceNode>, i: nat, m: nat, k: nat)
    requires Forward(nodes) && i < |nodes| && m <= |nodes[i].tx.outMsgs| && k < |Walk(nodes, i, m)|
    ensures Walk(nodes, i, m)[k].node > i || (Walk(nodes, i, m)[k].node == i && Walk(nodes, i, m)[k].message >= m)
  {
    var v := Walk(nodes, i, m)[k];
    assert v in multiset(Walk(nodes, i, m));
    WalkCounts(nodes, i, m, v);
    if v.node < i || (v.node == i && v.message < m) { WalkStaysBelow(nodes, i, m, v); }
  }

  lemma BelowIsLater(nodes: seq<TraceNode>, u: Visit)
    requires Forward(nodes) && IsMessage(nodes, u)
    ensures forall k :: 0 <= k < |Below(nodes, u)| ==> Below(nodes, u)[k].node > u.node
  {
    if HasChild(nodes, u) {
      forall k | 0 <= k < |Below(nodes, u)| ensures Below(nodes, u)[k].node > u.node {
        NotBefore(nodes, Child(nodes, u), 0, k);
      }
    }
  }
}
