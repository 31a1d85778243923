/** The breadth-first walk that collects the transactions of a trace
    (crates/cc-wallet-chain/src/wallet_service.rs), for any completion order of its lookups. */
module TraceTree {
  import opened Wrappers
  import opened Bytes
  import opened ChainTx
  import opened Sorting

  const TRACE_MAX_TRANSACTIONS := 64
  const TRACE_MAX_DEPTH := 12

  datatype TraceNode = TraceNode(tx: Transaction, depth: nat, children: map<nat, nat>)

  /** One outgoing message of one node. */
  datatype Visit = Visit(node: nat, message: nat)

  datatype LookupError = LookupFailed

  /** What the endpoint answers for a message: the transaction it caused, or that there is none. */
  type Lookup = Option<Bytes32> -> Result<Option<Transaction>, LookupError>

  predicate IsMessage(nodes: seq<TraceNode>, v: Visit) {
    v.node < |nodes| && v.message < |nodes[v.node].tx.outMsgs|
  }

  function MessageAt(nodes: seq<TraceNode>, v: Visit): Message
    requires IsMessage(nodes, v)
  {
    nodes[v.node].tx.outMsgs[v.message]
  }

  predicate IsInternal(nodes: seq<TraceNode>, v: Visit) {
    IsMessage(nodes, v) && MessageAt(nodes, v).kind.Int?
  }

  predicate ChildOf(nodes: seq<TraceNode>, v: Visit, c: nat) {
    v.node < |nodes| && v.message in nodes[v.node].children && nodes[v.node].children[v.message] == c
  }

  predicate HasChild(nodes: seq<TraceNode>, v: Visit) {
    v.node < |nodes| && v.message in nodes[v.node].children
  }

  /** The nodes form a tree: every node but the first hangs on exactly one internal message, of an
      earlier node one level up. `parents` says on which. */
  ghost predicate Tree(nodes: seq<TraceNode>, parents: seq<Visit>) {
    && nodes != [] && |parents| == |nodes| && nodes[0].depth == 0
    && (forall c :: 0 < c < |nodes| ==> ChildOf(nodes, parents[c], c))
    && (forall v, c :: ChildOf(nodes, v, c) ==> Hangs(nodes, parents, v, c))
  }

  predicate Hangs(nodes: seq<TraceNode>, parents: seq<Visit>, v: Visit, c: nat) {
    && 0 < c < |nodes| == |parents| && parents[c] == v && v.node < c && IsInternal(nodes, v)
    && nodes[c].depth == nodes[v.node].depth + 1
  }

  /** The lookup's answer is what the tree shows. */
  predicate Settled(nodes: seq<TraceNode>, lookup: Lookup, v: Visit)
    requires IsMessage(nodes, v)
  {
    match lookup(MessageAt(nodes, v).hash)
    case Ok(Some(tx)) => HasChild(nodes, v) && nodes[v.node].children[v.message] < |nodes| && nodes[nodes[v.node].children[v.message]].tx == tx
    case Ok(None) => !HasChild(nodes, v)
    case Err(_) => false
  }

  /** The messages asked about so far, and nothing else, have shaped the tree. */
  ghost predicate Explored(nodes: seq<TraceNode>, parents: seq<Visit>, lookup: Lookup, asked: set<Visit>) {
    && Tree(nodes, parents)
    && (forall v :: v in asked ==> IsInternal(nodes, v) && Settled(nodes, lookup, v))
    && (forall v :: HasChild(nodes, v) ==> v in asked)
  }

  function Attach(nodes: seq<TraceNode>, v: Visit, tx: Transaction, depth: nat): seq<TraceNode>
    requires v.node < |nodes|
  {
    nodes[v.node := nodes[v.node].(children := nodes[v.node].children[v.message := |nodes|])] + [TraceNode(tx, depth, map[])]
  }

  lemma AttachLinks(nodes: seq<TraceNode>, v: Visit, tx: Transaction, depth: nat, u: Visit, c: nat)
    requires v.node < |nodes| && !HasChild(nodes, v)
    ensures ChildOf(Attach(nodes, v, tx, depth), u, c) <==> ChildOf(nodes, u, c) || (u == v && c == |nodes|)
    ensures HasChild(Attach(nodes, v, tx, depth), u) <==> HasChild(nodes, u) || u == v
  {}

  lemma AttachKeepsTree(nodes: seq<TraceNode>, parents: seq<Visit>, v: Visit, tx: Transaction)
    requires Tree(nodes, parents) && IsInternal(nodes, v) && !HasChild(nodes, v)
    ensures Tree(Attach(nodes, v, tx, nodes[v.node].depth + 1), parents + [v])
  {
    var depth := nodes[v.node].depth + 1;
    var nodes', parents' := Attach(nodes, v, tx, depth), parents + [v];
    forall c | 0 < c < |nodes'| ensures ChildOf(nodes', parents'[c], c) {
      if c < |nodes| { assert ChildOf(nodes, parents[c], c); }
      AttachLinks(nodes, v, tx, depth, parents'[c], c);
    }
    forall u, c | ChildOf(nodes', u, c) ensures Hangs(nodes', parents', u, c) {
      AttachLinks(nodes, v, tx, depth, u, c);
      if ChildOf(nodes, u, c) { assert Hangs(nodes, parents, u, c); }
    }
  }

  lemma SettledFound(nodes: seq<TraceNode>, parents: seq<Visit>, lookup: Lookup, asked: set<Visit>, v: Visit, tx: Transaction)
    requires Explored(nodes, parents, lookup, asked) && IsInternal(nodes, v) && v !in asked
    requires lookup(MessageAt(nodes, v).hash) == Ok(Some(tx))
    ensures Explored(Attach(nodes, v, tx, nodes[v.node].depth + 1), parents + [v], lookup, asked + {v})
  {
    var depth := nodes[v.node].depth + 1;
    var nodes' := Attach(nodes, v, tx, depth);
    AttachKeepsTree(nodes, parents, v, tx);
    forall u | u in asked + {v} ensures IsInternal(nodes', u) && Settled(nodes', lookup, u) {
      AttachLinks(nodes, v, tx, depth, u, 0);
      if u in asked {
        assert IsInternal(nodes, u) && Settled(nodes, lookup, u);
        assert MessageAt(nodes', u) == MessageAt(nodes, u);
      }
    }
    forall u | HasChild(nodes', u) ensures u in asked + {v} {
      AttachLinks(nodes, v, tx, depth, u, 0);
    }
  }

  lemma SettledMissing(nodes: seq<TraceNode>, parents: seq<Visit>, lookup: Lookup, asked: set<Visit>, v: Visit)
    requires Explored(nodes, parents, lookup, asked) && IsInternal(nodes, v) && v !in asked
    requires lookup(MessageAt(nodes, v).hash) == Ok(None)
    ensures Explored(nodes, parents, lookup, asked + {v})
  {}

  // ----- one level of the walk -----

  /** `pending_messages`: the indices of the internal messages. */
  function PendingMessages(messages: seq<Message>): (r: seq<nat>)
    ensures forall m: nat :: m in r <==> m < |messages| && messages[m].kind.Int?
    ensures Distinct(r)
  {
    if messages == [] then []
    else
      var n := |messages| - 1;
      PendingMessages(messages[..n]) + if messages[n].kind.Int? then [n] else []
  }

  /** The messages of the frontier's nodes. */
  ghost predicate AreRequests(nodes: seq<TraceNode>, frontier: seq<nat>, requests: seq<Visit>) {
    Distinct(requests) && forall v :: v in requests <==> v.node in frontier && IsInternal(nodes, v)
  }

  method GatherNode(nodes: seq<TraceNode>, frontier: seq<nat>, node: nat, requests: seq<Visit>) returns (more: seq<Visit>)
    requires AreRequests(nodes, frontier, requests) && node < |nodes| && node !in frontier
    ensures AreRequests(nodes, frontier + [node], more)
  {
    var pending := PendingMessages(nodes[node].tx.outMsgs);
    more := requests;
    for j := 0 to |pending|
      invariant Distinct(more)
      invariant forall v :: v in more <==> v in requests || (v.node == node && v.message in pending[..j])
    {
      assert pending[..j + 1] == pending[..j] + [pending[j]];
      assert pending[j] !in pending[..j];
      more := more + [Visit(node, pending[j])];
    }
    assert pending[..|pending|] == pending;
  }

  method GatherRequests(nodes: seq<TraceNode>, frontier: seq<nat>) returns (requests: seq<Visit>)
    requires Distinct(frontier) && forall f :: f in frontier ==> f < |nodes|
    ensures AreRequests(nodes, frontier, requests)
  {
    requests := [];
    for i := 0 to |frontier|
      invariant AreRequests(nodes, frontier[..i], requests)
    {
      assert frontier[..i + 1] == frontier[..i] + [frontier[i]];
      assert frontier[i] in frontier;
      requests := GatherNode(nodes, frontier[..i], frontier[i], requests);
    }
    assert frontier[..|frontier|] == frontier;
  }

  /** The new nodes are exactly those of the next level's frontier. */
  ghost predicate NewNodes(before: nat, nodes: seq<TraceNode>, next: seq<nat>, depth: nat) {
    && before <= |nodes| && Distinct(next)
    && (forall c :: c in next <==> before <= c < |nodes|)
    && (forall c :: before <= c < |nodes| ==> nodes[c].depth == depth)
  }

  ghost predicate SameTransactions(before: seq<TraceNode>, nodes: seq<TraceNode>) {
    |before| <= |nodes| && forall i :: 0 <= i < |before| ==> nodes[i].tx == before[i].tx && nodes[i].depth == before[i].depth
  }

  /** The endpoint answers for this message. */
  predicate Answers(nodes: seq<TraceNode>, lookup: Lookup, v: Visit) {
    IsInternal(nodes, v) && lookup(MessageAt(nodes, v).hash).Ok?
  }

  /** One completed lookup: a found transaction becomes the newest node, hung on its message. */
  method JoinOne(nodes: seq<TraceNode>, ghost parents: seq<Visit>, lookup: Lookup, ghost asked: set<Visit>, v: Visit,
                 next: seq<nat>, depth: nat, ghost before: nat)
    returns (nodes': seq<TraceNode>, next': seq<nat>, ghost parents': seq<Visit>)
    requires Explored(nodes, parents, lookup, asked) && v !in asked && Answers(nodes, lookup, v)
    requires nodes[v.node].depth + 1 == depth && NewNodes(before, nodes, next, depth)
    ensures Explored(nodes', parents', lookup, asked + {v})
    ensures SameTransactions(nodes, nodes') && |nodes'| <= |nodes| + 1 && NewNodes(before, nodes', next', depth)
  {
    var found := lookup(nodes[v.node].tx.outMsgs[v.message].hash).value;
    nodes', next', parents' := nodes, next, parents;
    forall i | 0 <= i < |next| ensures next[i] < |nodes| {
      assert next[i] in next;
    }
    if found.Some? {
      SettledFound(nodes, parents, lookup, asked, v, found.value);
      next' := next + [|nodes|];
      nodes' := Attach(nodes, v, found.value, depth);
      parents' := parents + [v];
      assert forall c :: before <= c < |nodes'| ==> nodes'[c].depth == depth;
      forall c ensures c in next' <==> before <= c < |nodes'| {
        assert c in next' <==> c in next || c == |nodes|;
      }
    } else {
      SettledMissing(nodes, parents, lookup, asked, v);
    }
  }

  /** The lookups of one level, completing in any order. */
  method JoinLookups(nodes: seq<TraceNode>, ghost parents: seq<Visit>, lookup: Lookup, ghost asked: set<Visit>,
                     requests: seq<Visit>, depth: nat)
    returns (r: Result<(seq<TraceNode>, seq<nat>), LookupError>, ghost parents': seq<Visit>)
    requires Explored(nodes, parents, lookup, asked) && Distinct(requests)
    requires forall v :: v in requests ==> IsInternal(nodes, v) && v !in asked && nodes[v.node].depth + 1 == depth
    ensures r.Ok? <==> forall v :: v in requests ==> Answers(nodes, lookup, v)
    ensures r.Ok? ==>
      && Explored(r.value.0, parents', lookup, asked + (set v | v in requests))
      && SameTransactions(nodes, r.value.0) && |r.value.0| <= |nodes| + |requests|
      && NewNodes(|nodes|, r.value.0, r.value.1, depth)
  {
    var grown := nodes;
    var next: seq<nat> := [];
    var workers := requests;
    parents' := parents;
    ghost var answered: set<Visit> := {};
    assert asked + answered == asked;
    while workers != []
      invariant Distinct(workers)
      invariant forall v :: v in requests <==> v in workers || v in answered
      invariant forall v :: v in workers ==> v !in answered
      invariant Explored(grown, parents', lookup, asked + answered)
      invariant SameTransactions(nodes, grown) && |grown| + |workers| <= |nodes| + |requests|
      invariant NewNodes(|nodes|, grown, next, depth)
      invariant forall v :: v in answered ==> Answers(nodes, lookup, v)
      decreases |workers|
    {
      var k :| 0 <= k < |workers|;
      var v := workers[k];
      assert v in workers && v in requests;
      assert Answers(nodes, lookup, v) <==> Answers(grown, lookup, v);
      if lookup(nodes[v.node].tx.outMsgs[v.message].hash).Err? {
        return Err(LookupFailed), parents';
      }
      RemoveAt(workers, k);
      workers := workers[..k] + workers[k + 1..];
      assert asked + answered + {v} == asked + (answered + {v});
      grown, next, parents' := JoinOne(grown, parents', lookup, asked + answered, v, next, depth, |nodes|);
      answered := answered + {v};
    }
    assert answered == set v | v in requests;
    return Ok((grown, next)), parents';
  }

  lemma RemoveAt(s: seq<Visit>, k: nat)
    requires Distinct(s) && k < |s|
    ensures Distinct(s[..k] + s[k + 1..])
    ensures forall v :: v in s[..k] + s[k + 1..] <==> v in s && v != s[k]
  {
    var rest := s[..k] + s[k + 1..];
    forall v ensures v in rest <==> v in s && v != s[k] {
      if v in s && v != s[k] {
        var i :| 0 <= i < |s| && s[i] == v;
        assert rest[if i < k then i else i - 1] == v;
      }
    }
  }

  // ----- the whole walk -----

  /** Some internal message was never asked about. */
  ghost predicate LeftOut(nodes: seq<TraceNode>, asked: set<Visit>) {
    exists v :: IsInternal(nodes, v) && v !in asked
  }

  /** Everything but the frontier has been asked about, unless the walk is truncated; then something
      behind the frontier was not. */
  ghost predicate Progress(nodes: seq<TraceNode>, asked: set<Visit>, frontier: seq<nat>, truncated: bool) {
    && Distinct(frontier)
    && (forall f :: f in frontier ==> f < |nodes|)
    && (forall v :: v in asked ==> v.node !in frontier)
    && (!truncated ==> forall v :: IsInternal(nodes, v) && v !in asked ==> v.node in frontier)
    && (truncated ==> exists v :: IsInternal(nodes, v) && v !in asked && v.node !in frontier)
  }

  ghost predicate WithinLimits(nodes: seq<TraceNode>) {
    |nodes| <= TRACE_MAX_TRANSACTIONS && forall i :: 0 <= i < |nodes| ==> nodes[i].depth <= TRACE_MAX_DEPTH
  }

  lemma LevelProgress(nodes: seq<TraceNode>, nodes': seq<TraceNode>, asked: set<Visit>, frontier: seq<nat>, truncated: bool,
                      all: seq<Visit>, requests: seq<Visit>, next: seq<nat>, depth: nat)
    requires Progress(nodes, asked, frontier, truncated) && AreRequests(nodes, frontier, all) && requests <= all
    requires SameTransactions(nodes, nodes') && NewNodes(|nodes|, nodes', next, depth)
    requires forall v :: v in asked ==> IsInternal(nodes, v)
    ensures Progress(nodes', asked + (set v | v in requests), next, truncated || |requests| < |all|)
  {
    var asked' := asked + (set v | v in requests);
    assert forall v: Visit :: v.node < |nodes| ==> (IsInternal(nodes', v) <==> IsInternal(nodes, v));
    assert forall v :: v in asked' ==> v.node < |nodes|;
    if truncated {
      var v :| IsInternal(nodes, v) && v !in asked && v.node !in frontier;
      assert v !in all;
      assert v !in requests;
      assert IsInternal(nodes', v) && v !in asked' && v.node !in next;
    } else if |requests| < |all| {
      var v := all[|requests|];
      assert v in all && v !in requests;
      assert IsInternal(nodes', v) && v !in asked' && v.node !in next;
    } else {
      assert requests == all;
      assert forall v :: IsInternal(nodes, v) ==> v in asked';
    }
  }

  /** One level: as many lookups as there is room for. */
  method WalkLevel(nodes: seq<TraceNode>, ghost parents: seq<Visit>, lookup: Lookup, ghost asked: set<Visit>,
                   ghost frontier: seq<nat>, truncated: bool, all: seq<Visit>, depth: nat)
    returns (r: Result<(seq<TraceNode>, seq<nat>, bool), LookupError>, ghost parents': seq<Visit>, ghost asked': set<Visit>)
    requires Explored(nodes, parents, lookup, asked) && WithinLimits(nodes) && depth <= TRACE_MAX_DEPTH
    requires Progress(nodes, asked, frontier, truncated) && AreRequests(nodes, frontier, all)
    requires forall f :: f in frontier ==> nodes[f].depth + 1 == depth
    ensures r.Ok? ==>
      && Explored(r.value.0, parents', lookup, asked') && WithinLimits(r.value.0) && SameTransactions(nodes, r.value.0)
      && Progress(r.value.0, asked', r.value.1, r.value.2)
      && forall f :: f in r.value.1 ==> r.value.0[f].depth == depth
    ensures (forall h :: lookup(h).Ok?) ==> r.Ok?
  {
    var room := TRACE_MAX_TRANSACTIONS - |nodes|;
    var requests := if |all| > room then all[..room] else all;
    assert forall v :: v in requests ==> v in all;
    asked' := asked + (set v | v in requests);
    var joined;
    joined, parents' := JoinLookups(nodes, parents, lookup, asked, requests, depth);
    if joined.Err? { return Err(joined.error), parents', asked'; }
    LevelProgress(nodes, joined.value.0, asked, frontier, truncated, all, requests, joined.value.1, depth);
    return Ok((joined.value.0, joined.value.1, truncated || |all| > room)), parents', asked';
  }

  /** The breadth-first walk: whatever the order of completions, the nodes form a tree inside the
      limits, every answer is shown by it, and the walk is marked truncated exactly when some
      internal message was not asked about. */
  method BuildTrace(root: Transaction, lookup: Lookup)
    returns (r: Result<seq<TraceNode>, LookupError>, truncated: bool, ghost parents: seq<Visit>, ghost asked: set<Visit>)
    ensures r.Ok? ==> r.value != [] && r.value[0].tx == root && WithinLimits(r.value)
    ensures r.Ok? ==> Explored(r.value, parents, lookup, asked)
    ensures r.Ok? ==> (truncated <==> LeftOut(r.value, asked))
    ensures (forall h :: lookup(h).Ok?) ==> r.Ok?
  {
    var nodes := [TraceNode(root, 0, map[])];
    var frontier := [0];
    truncated, parents, asked := false, [Visit(0, 0)], {};
    for depth := 1 to TRACE_MAX_DEPTH + 1
      invariant Explored(nodes, parents, lookup, asked) && nodes[0].tx == root && WithinLimits(nodes)
      invariant Progress(nodes, asked, frontier, truncated)
      invariant forall f :: f in frontier ==> nodes[f].depth + 1 == depth
    {
      var all := GatherRequests(nodes, frontier);
      if all == [] {
        NothingPending(nodes, asked, frontier, truncated, all);
        return Ok(nodes), truncated, parents, asked;
      }
      if |nodes| == TRACE_MAX_TRANSACTIONS {
        assert all[0] in all;
        return Ok(nodes), true, parents, asked;
      }
      var level;
      level, parents, asked := WalkLevel(nodes, parents, lookup, asked, frontier, truncated, all, depth);
      if level.Err? { return Err(level.error), truncated, parents, asked; }
      nodes, frontier, truncated := level.value.0, level.value.1, level.value.2;
    }
    var all := GatherRequests(nodes, frontier);
    if all != [] {
      assert all[0] in all;
      truncated := true;
    } else {
      NothingPending(nodes, asked, frontier, truncated, all);
    }
    return Ok(nodes), truncated, parents, asked;
  }

  lemma NothingPending(nodes: seq<TraceNode>, asked: set<Visit>, frontier: seq<nat>, truncated: bool, all: seq<Visit>)
    requires Progress(nodes, asked, frontier, truncated) && AreRequests(nodes, frontier, all) && all == []
    ensures truncated <==> LeftOut(nodes, asked)
  {}

  /** An untruncated trace asked about every internal message: each is settled by the tree. */
  lemma UntruncatedIsComplete(nodes: seq<TraceNode>, parents: seq<Visit>, lookup: Lookup, asked: set<Visit>, v: Visit)
    requires Explored(nodes, parents, lookup, asked) && !LeftOut(nodes, asked) && IsInternal(nodes, v)
    ensures Settled(nodes, lookup, v)
  {}
}
