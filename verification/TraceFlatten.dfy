/** Flattening a trace into parties and edges (crates/cc-wallet-chain/src/trace.rs), and what the
    flattened form conserves. Contract names and operation names come from outside decoders. */
module TraceFlatten {
  import opened Wrappers
  import opened Bytes
  import opened Amounts
  import opened ChainTx
  import opened Sorting
  import opened TxViews
  import opened TraceTree
  import opened TraceWalk

  datatype TraceParty = TraceParty(address: string, contract: string)

  datatype TraceTx = TraceTx(hash: Bytes32, lt: U64, timeUnix: U64, feeNative: U128, success: bool, failure: Option<Failure>)

  datatype TraceEdge = TraceEdge(
    src: nat, dst: nat, op: string, movements: seq<AssetAmount>, fwdFee: U128, depth: nat, tx: Option<TraceTx>)

  /** The decoders: the name of the contract at an address, and of a message between two addresses. */
  datatype Decoders = Decoders(contract: string -> string, operation: (Message, string, string) -> string)

  function AccountOf(tx: Transaction): string {
    if tx.inMsg.Some? then OrElse(tx.inMsg.value.dst, "") else ""
  }

  function Destination(m: Message): string {
    if m.kind.ExtOut? then "" else OrElse(m.dst, "")
  }

  function MessageOp(d: Decoders, m: Message, src: string, dst: string): string {
    if m.bounced then "bounce" else if m.kind.ExtOut? then "event" else d.operation(m, src, dst)
  }

  function TraceTxOf(tx: Transaction): TraceTx
    requires tx.hash.Some?
  {
    TraceTx(tx.hash.value, tx.lt, tx.now, tx.totalFees, Succeeded(tx), FailureReason(tx))
  }

  // ----- parties -----

  /** The outside world first, then every address once, with its contract name. */
  predicate PartiesFit(parties: seq<TraceParty>, d: Decoders) {
    && parties != [] && parties[0] == TraceParty("", "")
    && (forall i, j :: 0 <= i < j < |parties| ==> parties[i].address != parties[j].address)
    && forall i :: 0 < i < |parties| ==> parties[i].contract == d.contract(parties[i].address)
  }

  predicate Named(parties: seq<TraceParty>, i: nat, address: string) {
    i < |parties| && parties[i].address == address
  }

  // ----- one edge per visit -----

  /** A message can be drawn: its amounts are well formed, and so is the hash of what it caused. */
  ghost predicate VisitFits(nodes: seq<TraceNode>, v: Visit)
    requires Forward(nodes)
  {
    IsMessage(nodes, v) && MovementsFit(MessageAt(nodes, v)) && (HasChild(nodes, v) ==> nodes[Child(nodes, v)].tx.hash.Some?)
  }

  /** The edge drawn for a message: who to whom, what it is, what it carries and what it caused. */
  ghost predicate EdgeIs(nodes: seq<TraceNode>, d: Decoders, parties: seq<TraceParty>, e: TraceEdge, v: Visit)
    requires Forward(nodes)
  {
    && VisitFits(nodes, v)
    && var m := MessageAt(nodes, v);
       var src, dst := AccountOf(nodes[v.node].tx), Destination(m);
       && Named(parties, e.src, src) && Named(parties, e.dst, dst)
       && e.op == MessageOp(d, m, src, dst) && e.movements == MovementList(m) && e.fwdFee == m.fwdFee
       && e.depth == nodes[v.node].depth + 1
       && e.tx == if HasChild(nodes, v) then Some(TraceTxOf(nodes[Child(nodes, v)].tx)) else None
  }

  /** From `start` on, the edges are those of the walk, in its order. */
  ghost predicate Drawn(nodes: seq<TraceNode>, d: Decoders, parties: seq<TraceParty>, edges: seq<TraceEdge>, start: nat, walk: seq<Visit>)
    requires Forward(nodes)
  {
    |edges| == start + |walk| && forall k :: 0 <= k < |walk| ==> EdgeIs(nodes, d, parties, edges[start + k], walk[k])
  }

  ghost predicate VisitsFit(nodes: seq<TraceNode>, walk: seq<Visit>)
    requires Forward(nodes)
  {
    forall k :: 0 <= k < |walk| ==> VisitFits(nodes, walk[k])
  }

  /** More parties and more edges do not disturb what is drawn. */
  lemma DrawnStays(nodes: seq<TraceNode>, d: Decoders, parties: seq<TraceParty>, parties': seq<TraceParty>, edges: seq<TraceEdge>,
                   start: nat, walk: seq<Visit>)
    requires Forward(nodes) && Drawn(nodes, d, parties, edges, start, walk) && parties <= parties'
    ensures Drawn(nodes, d, parties', edges, start, walk)
  {
    forall k | 0 <= k < |walk| ensures EdgeIs(nodes, d, parties', edges[start + k], walk[k]) {
      assert EdgeIs(nodes, d, parties, edges[start + k], walk[k]);
    }
  }

  lemma DrawnConcat(nodes: seq<TraceNode>, d: Decoders, parties: seq<TraceParty>, edges: seq<TraceEdge>, edges': seq<TraceEdge>,
                    start: nat, a: seq<Visit>, b: seq<Visit>)
    requires Forward(nodes) && Drawn(nodes, d, parties, edges, start, a)
    requires edges <= edges' && Drawn(nodes, d, parties, edges', |edges|, b)
    ensures Drawn(nodes, d, parties, edges', start, a + b)
  {
    forall k | 0 <= k < |a + b| ensures EdgeIs(nodes, d, parties, edges'[start + k], (a + b)[k]) {
      if k < |a| {
        assert EdgeIs(nodes, d, parties, edges[start + k], a[k]);
      } else {
        assert EdgeIs(nodes, d, parties, edges'[|edges| + (k - |a|)], b[k - |a|]);
      }
    }
  }

  class TraceView {
    var parties: seq<TraceParty>
    var edges: seq<TraceEdge>

    constructor ()
      ensures parties == [TraceParty("", "")] && edges == []
    {
      parties, edges := [TraceParty("", "")], [];
    }

    /** `party_index`: the place of an address, added at the end if it is new. */
    method PartyIndex(address: string, d: Decoders) returns (i: nat)
      requires PartiesFit(parties, d)
      modifies this`parties
      ensures PartiesFit(parties, d) && old(parties) <= parties && Named(parties, i, address)
      ensures parties == old(parties) || (parties == old(parties) + [TraceParty(address, d.contract(address))] && i == |old(parties)|)
    {
      if address == "" { return 0; }
      for k := 0 to |parties|
        invariant parties == old(parties)
        invariant forall j :: 0 <= j < k ==> parties[j].address != address
      {
        if parties[k].address == address { return k; }
      }
      parties := parties + [TraceParty(address, d.contract(address))];
      return |parties| - 1;
    }

    /** One edge of `walk_out`. */
    method Draw(nodes: seq<TraceNode>, d: Decoders, v: Visit, src: nat) returns (ok: bool)
      requires Forward(nodes) && IsMessage(nodes, v) && PartiesFit(parties, d) && Named(parties, src, AccountOf(nodes[v.node].tx))
      modifies this
      ensures PartiesFit(parties, d) && old(parties) <= parties
      ensures ok <==> VisitFits(nodes, v)
      ensures ok ==> old(edges) <= edges && Drawn(nodes, d, parties, edges, |old(edges)|, [v])
    {
      var node := nodes[v.node];
      var m := node.tx.outMsgs[v.message];
      var dst := PartyIndex(Destination(m), d);
      var movements := MessageMovements(m);
      if movements.Err? { return false; }
      var tx: Option<TraceTx> := None;
      if v.message in node.children {
        assert ChildOf(nodes, v, node.children[v.message]);
        var caused := nodes[node.children[v.message]].tx;
        if caused.hash.None? { return false; }
        tx := Some(TraceTxOf(caused));
      }
      var op := MessageOp(d, m, AccountOf(node.tx), Destination(m));
      edges := edges + [TraceEdge(src, dst, op, movements.value, m.fwdFee, node.depth + 1, tx)];
      return true;
    }

    /** One turn of the loop in `walk_out`: a message and everything it caused. */
    method WalkMessage(nodes: seq<TraceNode>, d: Decoders, v: Visit, src: nat) returns (ok: bool)
      requires Forward(nodes) && IsMessage(nodes, v) && PartiesFit(parties, d) && Named(parties, src, AccountOf(nodes[v.node].tx))
      modifies this
      ensures PartiesFit(parties, d) && old(parties) <= parties
      ensures ok <==> VisitFits(nodes, v) && VisitsFit(nodes, Below(nodes, v))
      ensures ok ==> old(edges) <= edges && Drawn(nodes, d, parties, edges, |old(edges)|, [v] + Below(nodes, v))
      decreases |nodes| - v.node, 0
    {
      ok := Draw(nodes, d, v, src);
      ghost var edges1, parties1 := edges, parties;
      if ok && v.message in nodes[v.node].children {
        assert ChildOf(nodes, v, nodes[v.node].children[v.message]);
        ok := WalkOut(nodes, d, nodes[v.node].children[v.message]);
        if ok {
          DrawnStays(nodes, d, parties1, parties, edges1, |old(edges)|, [v]);
          DrawnConcat(nodes, d, parties, edges1, edges, |old(edges)|, [v], Below(nodes, v));
        }
      } else {
        assert [v] + [] == [v];
      }
    }

    /** `walk_out`: draws the whole walk below a node, or stops at the first message that does not fit. */
    method WalkOut(nodes: seq<TraceNode>, d: Decoders, i: nat) returns (ok: bool)
      requires Forward(nodes) && i < |nodes| && PartiesFit(parties, d)
      modifies this
      ensures PartiesFit(parties, d) && old(parties) <= parties
      ensures ok <==> VisitsFit(nodes, Walk(nodes, i, 0))
      ensures ok ==> old(edges) <= edges && Drawn(nodes, d, parties, edges, |old(edges)|, Walk(nodes, i, 0))
      decreases |nodes| - i, 1
    {
      var node := nodes[i];
      var src := PartyIndex(AccountOf(node.tx), d);
      ghost var walk := Walk(nodes, i, 0);
      ghost var done: seq<Visit> := [];
      for m := 0 to |node.tx.outMsgs|
        invariant PartiesFit(parties, d) && old(parties) <= parties && Named(parties, src, AccountOf(node.tx))
        invariant walk == done + Walk(nodes, i, m) && VisitsFit(nodes, done)
        invariant old(edges) <= edges && Drawn(nodes, d, parties, edges, |old(edges)|, done)
      {
        ghost var edges0, parties0 := edges, parties;
        var v := Visit(i, m);
        WalkHead(nodes, i, m, done, walk);
        ok := WalkMessage(nodes, d, v, src);
        if !ok { return; }
        DrawnStays(nodes, d, parties0, parties, edges0, |old(edges)|, done);
        DrawnConcat(nodes, d, parties, edges0, edges, |old(edges)|, done, [v] + Below(nodes, v));
        done := done + ([v] + Below(nodes, v));
        DrawnFits(nodes, d, parties, edges, |old(edges)|, done);
      }
      assert walk == done;
      return true;
    }
  }

  lemma DrawnFits(nodes: seq<TraceNode>, d: Decoders, parties: seq<TraceParty>, edges: seq<TraceEdge>, start: nat, walk: seq<Visit>)
    requires Forward(nodes) && Drawn(nodes, d, parties, edges, start, walk)
    ensures VisitsFit(nodes, walk)
  {
    forall k | 0 <= k < |walk| ensures VisitFits(nodes, walk[k]) {
      assert EdgeIs(nodes, d, parties, edges[start + k], walk[k]);
    }
  }

  lemma WalkHead(nodes: seq<TraceNode>, i: nat, m: nat, done: seq<Visit>, walk: seq<Visit>)
    requires Forward(nodes) && i < |nodes| && m < |nodes[i].tx.outMsgs| && walk == done + Walk(nodes, i, m)
    ensures walk == done + ([Visit(i, m)] + Below(nodes, Visit(i, m))) + Walk(nodes, i, m + 1)
    ensures !VisitFits(nodes, Visit(i, m)) || !VisitsFit(nodes, Below(nodes, Visit(i, m))) ==> !VisitsFit(nodes, walk)
  {
    var v, below := Visit(i, m), Below(nodes, Visit(i, m));
    assert walk[|done|] == v;
    forall k | 0 <= k < |below| ensures walk[|done| + 1 + k] == below[k] {}
  }

  // ----- sums over the walk are sums over the nodes -----

  ghost function SumNodes(w: nat -> nat, n: nat): nat {
    if n == 0 then 0 else SumNodes(w, n - 1) + w(n - 1)
  }

  lemma {:induction false} SumNodesIsTotal(w: nat -> nat, n: nat)
    ensures SumNodes(w, n + 1) == w(0) + Total(w, Range(n))
  {
    if n > 0 {
      SumNodesIsTotal(w, n - 1);
      assert Range(n) == Range(n - 1) + [n];
      TotalConcat(w, Range(n - 1), [n]);
      assert [n][1..] == [];
    } else {
      assert SumNodes(w, 1) == SumNodes(w, 0) + w(0);
    }
  }

  /** The weight of the node a message caused. */
  ghost function ChildWeightAt(nodes: seq<TraceNode>, w: nat -> nat, v: Visit): nat {
    if HasChild(nodes, v) then w(nodes[v.node].children[v.message]) else 0
  }

  ghost function ChildWeight(nodes: seq<TraceNode>, w: nat -> nat): Visit -> nat {
    (v: Visit) => ChildWeightAt(nodes, w, v)
  }

  lemma {:induction false} ChildrenSum(nodes: seq<TraceNode>, w: nat -> nat, walk: seq<Visit>)
    ensures Total(ChildWeight(nodes, w), walk) == Total(w, Entered(nodes, walk))
  {
    if walk != [] {
      ChildrenSum(nodes, w, walk[1..]);
      if HasChild(nodes, walk[0]) {
        var c := nodes[walk[0].node].children[walk[0].message];
        TotalConcat(w, [c], Entered(nodes, walk[1..]));
        assert [c][1..] == [];
      } else {
        assert Entered(nodes, walk) == Entered(nodes, walk[1..]);
      }
    }
  }

  /** Whatever is counted per node, the root and the nodes the walk enters make up all nodes. */
  lemma NodesSum(nodes: seq<TraceNode>, parents: seq<Visit>, w: nat -> nat)
    requires Tree(nodes, parents) && Forward(nodes)
    ensures w(0) + Total(ChildWeight(nodes, w), Walk(nodes, 0, 0)) == SumNodes(w, |nodes|)
  {
    WalkEntersAll(nodes, parents);
    EnteredSum(nodes, w, Walk(nodes, 0, 0));
  }

  lemma EnteredSum(nodes: seq<TraceNode>, w: nat -> nat, walk: seq<Visit>)
    requires nodes != [] && multiset(Entered(nodes, walk)) == multiset(Range(|nodes| - 1))
    ensures w(0) + Total(ChildWeight(nodes, w), walk) == SumNodes(w, |nodes|)
  {
    ChildrenSum(nodes, w, walk);
    TotalPermutes(w, Entered(nodes, walk), Range(|nodes| - 1));
    SumNodesIsTotal(w, |nodes| - 1);
  }

  /** Whatever is counted per message, the walk counts it over all messages of all nodes. */
  ghost function RowTotal(nodes: seq<TraceNode>, f: Visit -> nat, i: nat): nat {
    if i < |nodes| then Total(f, Row(i, |nodes[i].tx.outMsgs|)) else 0
  }

  ghost function RowWeight(nodes: seq<TraceNode>, f: Visit -> nat): nat -> nat {
    (i: nat) => RowTotal(nodes, f, i)
  }

  /** The sum over the first rows. */
  ghost function FirstRows(nodes: seq<TraceNode>, f: Visit -> nat, n: nat): nat {
    if n <= |nodes| then Total(f, Rows(nodes, n)) else 0
  }

  ghost function FirstRowsOf(nodes: seq<TraceNode>, f: Visit -> nat): nat -> nat {
    (n: nat) => FirstRows(nodes, f, n)
  }

  lemma OneMoreRowTotal(nodes: seq<TraceNode>, f: Visit -> nat, n: nat)
    requires n < |nodes|
    ensures FirstRows(nodes, f, n + 1) == FirstRows(nodes, f, n) + RowTotal(nodes, f, n)
  {
    TotalConcat(f, Rows(nodes, n), Row(n, |nodes[n].tx.outMsgs|));
  }

  lemma {:induction false} SumsUp(g: nat -> nat, w: nat -> nat, n: nat)
    requires g(0) == 0 && forall i: nat :: i < n ==> g(i + 1) == g(i) + w(i)
    ensures SumNodes(w, n) == g(n)
  {
    if n > 0 {
      SumsUp(g, w, n - 1);
      assert g(n - 1 + 1) == g(n - 1) + w(n - 1);
    }
  }

  lemma RowsSum(nodes: seq<TraceNode>, f: Visit -> nat, n: nat)
    requires n <= |nodes|
    ensures Total(f, Rows(nodes, n)) == SumNodes(RowWeight(nodes, f), n)
  {
    var g, w := FirstRowsOf(nodes, f), RowWeight(nodes, f);
    forall i: nat | i < n ensures g(i + 1) == g(i) + w(i) {
      OneMoreRowTotal(nodes, f, i);
    }
    SumsUp(g, w, n);
  }

  lemma MessagesSum(nodes: seq<TraceNode>, parents: seq<Visit>, f: Visit -> nat)
    requires Tree(nodes, parents) && Forward(nodes)
    ensures Total(f, Walk(nodes, 0, 0)) == SumNodes(RowWeight(nodes, f), |nodes|)
  {
    WalkIsAll(nodes, parents);
    RearrangedSum(nodes, f, Walk(nodes, 0, 0));
  }

  lemma RearrangedSum(nodes: seq<TraceNode>, f: Visit -> nat, walk: seq<Visit>)
    requires multiset(walk) == multiset(Rows(nodes, |nodes|))
    ensures Total(f, walk) == SumNodes(RowWeight(nodes, f), |nodes|)
  {
    TotalPermutes(f, walk, Rows(nodes, |nodes|));
    RowsSum(nodes, f, |nodes|);
  }

  /** The walk has as many visits as the nodes have messages. */
  ghost function MessageCount(nodes: seq<TraceNode>): nat -> nat {
    (i: nat) => if i < |nodes| then |nodes[i].tx.outMsgs| else 0
  }

  lemma {:induction false} RowsLength(nodes: seq<TraceNode>, n: nat)
    requires n <= |nodes|
    ensures |Rows(nodes, n)| == SumNodes(MessageCount(nodes), n)
  {
    if n > 0 { RowsLength(nodes, n - 1); }
  }

  lemma WalkLength(nodes: seq<TraceNode>, parents: seq<Visit>)
    requires Tree(nodes, parents) && Forward(nodes)
    ensures |Walk(nodes, 0, 0)| == SumNodes(MessageCount(nodes), |nodes|)
  {
    WalkIsAll(nodes, parents);
    RowsLength(nodes, |nodes|);
    PermutationLength(Walk(nodes, 0, 0), Rows(nodes, |nodes|));
  }

  // ----- the totals -----

  function EdgeFee(e: TraceEdge): nat {
    e.fwdFee + if e.tx.Some? then e.tx.value.feeNative else 0
  }

  function EdgeFailed(e: TraceEdge): nat {
    if e.tx.Some? && !e.tx.value.success then 1 else 0
  }

  function EdgeUnexecuted(e: TraceEdge): nat {
    if e.tx.None? && e.op != "event" then 1 else 0
  }

  function EdgeExecuted(e: TraceEdge): nat {
    if e.tx.Some? then 1 else 0
  }

  ghost function ForwardFee(nodes: seq<TraceNode>): Visit -> nat {
    (v: Visit) => if IsMessage(nodes, v) then MessageAt(nodes, v).fwdFee else 0
  }

  ghost function NodeFee(nodes: seq<TraceNode>): nat -> nat {
    (i: nat) => if i < |nodes| then nodes[i].tx.totalFees else 0
  }

  ghost function NodeFailed(nodes: seq<TraceNode>): nat -> nat {
    (i: nat) => if i < |nodes| && !Succeeded(nodes[i].tx) then 1 else 0
  }

  ghost function One(): nat -> nat {
    (i: nat) => 1
  }

  /** A message that caused nothing and is not an event. */
  ghost function Unexecuted(nodes: seq<TraceNode>, d: Decoders): Visit -> nat {
    (v: Visit) => if IsMessage(nodes, v) && !HasChild(nodes, v)
            && MessageOp(d, MessageAt(nodes, v), AccountOf(nodes[v.node].tx), Destination(MessageAt(nodes, v))) != "event"
         then 1 else 0
  }

  function InboundFee(tx: Transaction): nat {
    if tx.inMsg.Some? then tx.inMsg.value.fwdFee else 0
  }

  /** The root's inbound forward fee, every node's fees and every outgoing message's forward fee. */
  ghost function TraceFees(nodes: seq<TraceNode>): nat
    requires nodes != []
  {
    InboundFee(nodes[0].tx) + SumNodes(NodeFee(nodes), |nodes|) + SumNodes(RowWeight(nodes, ForwardFee(nodes)), |nodes|)
  }

  ghost function VisitFeeAt(nodes: seq<TraceNode>, v: Visit): nat {
    ForwardFee(nodes)(v) + ChildWeightAt(nodes, NodeFee(nodes), v)
  }

  ghost function VisitFee(nodes: seq<TraceNode>): Visit -> nat {
    (v: Visit) => VisitFeeAt(nodes, v)
  }

  lemma EdgeTotals(nodes: seq<TraceNode>, d: Decoders, parties: seq<TraceParty>, e: TraceEdge, v: Visit)
    requires Forward(nodes) && EdgeIs(nodes, d, parties, e, v)
    ensures EdgeFee(e) == VisitFee(nodes)(v)
    ensures EdgeFailed(e) == ChildWeight(nodes, NodeFailed(nodes))(v)
    ensures EdgeExecuted(e) == ChildWeight(nodes, One())(v)
    ensures EdgeUnexecuted(e) == Unexecuted(nodes, d)(v)
  {}

  /** What a drawn trace adds up to. */
  ghost predicate Conserves(nodes: seq<TraceNode>, d: Decoders, edges: seq<TraceEdge>)
    requires nodes != []
  {
    && |edges| == 1 + SumNodes(MessageCount(nodes), |nodes|)
    && Total(EdgeFee, edges) == TraceFees(nodes)
    && Total(EdgeFailed, edges) == SumNodes(NodeFailed(nodes), |nodes|)
    && Total(EdgeExecuted, edges) == |nodes|
    && Total(EdgeUnexecuted, edges) == SumNodes(RowWeight(nodes, Unexecuted(nodes, d)), |nodes|)
  }

  /** The first edge: what triggered the root. */
  ghost predicate RootEdge(root: Transaction, d: Decoders, parties: seq<TraceParty>, e: TraceEdge) {
    && RootFits(root)
    && Named(parties, e.dst, AccountOf(root))
    && Named(parties, e.src, if root.inMsg.Some? then OrElse(root.inMsg.value.src, "") else "")
    && e.op == (if root.inMsg.Some? then MessageOp(d, root.inMsg.value, OrElse(root.inMsg.value.src, ""), AccountOf(root)) else "tick-tock")
    && e.movements == (if root.inMsg.Some? then MovementList(root.inMsg.value) else [])
    && e.fwdFee == InboundFee(root) && e.depth == 0 && e.tx == Some(TraceTxOf(root))
  }

  predicate RootFits(root: Transaction) {
    root.hash.Some? && (root.inMsg.Some? ==> MovementsFit(root.inMsg.value))
  }

  lemma {:induction false} SumOnes(n: nat)
    ensures SumNodes(One(), n) == n
  {
    if n > 0 { SumOnes(n - 1); }
  }

  /** Each kind of total splits into the first edge and the walk. */
  lemma SplitTotal(nodes: seq<TraceNode>, d: Decoders, parties: seq<TraceParty>, edges: seq<TraceEdge>, g: TraceEdge -> nat, f: Visit -> nat)
    requires Forward(nodes) && nodes != [] && Drawn(nodes, d, parties, edges, 1, Walk(nodes, 0, 0))
    requires forall e, v :: EdgeIs(nodes, d, parties, e, v) ==> g(e) == f(v)
    ensures Total(g, edges) == g(edges[0]) + Total(f, Walk(nodes, 0, 0))
  {
    var walk := Walk(nodes, 0, 0);
    forall k | 0 <= k < |walk| ensures g(edges[1..][k]) == f(walk[k]) {
      assert EdgeIs(nodes, d, parties, edges[1 + k], walk[k]);
    }
    TotalAgrees(g, edges[1..], f, walk);
  }

  lemma FeesAdd(nodes: seq<TraceNode>, walk: seq<Visit>)
    ensures Total(VisitFee(nodes), walk) == Total(ForwardFee(nodes), walk) + Total(ChildWeight(nodes, NodeFee(nodes)), walk)
  {
    TotalAdds(ForwardFee(nodes), ChildWeight(nodes, NodeFee(nodes)), VisitFee(nodes), walk);
  }

  /** Conservation: whatever the tree, the flattened trace has one edge for the root and one per
      message, and its fees, failures and executions are those of the nodes, each counted once. */
  lemma DrawingConserves(nodes: seq<TraceNode>, parents: seq<Visit>, d: Decoders, parties: seq<TraceParty>, edges: seq<TraceEdge>)
    requires Tree(nodes, parents) && Forward(nodes)
    requires Drawn(nodes, d, parties, edges, 1, Walk(nodes, 0, 0)) && RootEdge(nodes[0].tx, d, parties, edges[0])
    ensures Conserves(nodes, d, edges)
  {
    var walk := Walk(nodes, 0, 0);
    forall e, v | EdgeIs(nodes, d, parties, e, v)
      ensures EdgeFee(e) == VisitFee(nodes)(v) && EdgeFailed(e) == ChildWeight(nodes, NodeFailed(nodes))(v)
      ensures EdgeExecuted(e) == ChildWeight(nodes, One())(v) && EdgeUnexecuted(e) == Unexecuted(nodes, d)(v)
    {
      EdgeTotals(nodes, d, parties, e, v);
    }
    WalkLength(nodes, parents);
    SplitTotal(nodes, d, parties, edges, EdgeFee, VisitFee(nodes));
    FeesAdd(nodes, walk);
    MessagesSum(nodes, parents, ForwardFee(nodes));
    NodesSum(nodes, parents, NodeFee(nodes));
    SplitTotal(nodes, d, parties, edges, EdgeFailed, ChildWeight(nodes, NodeFailed(nodes)));
    NodesSum(nodes, parents, NodeFailed(nodes));
    SplitTotal(nodes, d, parties, edges, EdgeExecuted, ChildWeight(nodes, One()));
    NodesSum(nodes, parents, One());
    SumOnes(|nodes|);
    SplitTotal(nodes, d, parties, edges, EdgeUnexecuted, Unexecuted(nodes, d));
    MessagesSum(nodes, parents, Unexecuted(nodes, d));
  }

  datatype AccountTrace = AccountTrace(
    root: Bytes32, parties: seq<TraceParty>, edges: seq<TraceEdge>, totalFees: U128, failed: nat, unexecuted: nat, truncated: bool)

  lemma TotalPrefix(g: TraceEdge -> nat, edges: seq<TraceEdge>, i: nat)
    requires i < |edges|
    ensures Total(g, edges[..i + 1]) == Total(g, edges[..i]) + g(edges[i])
    ensures Total(g, edges[..i + 1]) <= Total(g, edges)
  {
    assert edges[..i + 1] == edges[..i] + [edges[i]];
    TotalConcat(g, edges[..i], [edges[i]]);
    assert [edges[i]][1..] == [];
    assert edges == edges[..i + 1] + edges[i + 1..];
    TotalConcat(g, edges[..i + 1], edges[i + 1..]);
  }

  /** The loop that adds up the fees and counts what failed or never ran. */
  method AddUp(edges: seq<TraceEdge>) returns (fees: Option<U128>, failed: nat, unexecuted: nat)
    ensures fees.Some? <==> Total(EdgeFee, edges) <= U128_MAX
    ensures fees.Some? ==>
      fees.value == Total(EdgeFee, edges) && failed == Total(EdgeFailed, edges) && unexecuted == Total(EdgeUnexecuted, edges)
  {
    var sum: U128 := 0;
    failed, unexecuted := 0, 0;
    for i := 0 to |edges|
      invariant sum == Total(EdgeFee, edges[..i]) && failed == Total(EdgeFailed, edges[..i])
      invariant unexecuted == Total(EdgeUnexecuted, edges[..i])
    {
      var e := edges[i];
      TotalPrefix(EdgeFee, edges, i);
      TotalPrefix(EdgeFailed, edges, i);
      TotalPrefix(EdgeUnexecuted, edges, i);
      if sum + e.fwdFee > U128_MAX { return None, failed, unexecuted; }
      sum := sum + e.fwdFee;
      if e.tx.Some? {
        if sum + e.tx.value.feeNative > U128_MAX { return None, failed, unexecuted; }
        sum := sum + e.tx.value.feeNative;
        if !e.tx.value.success { failed := failed + 1; }
      } else if e.op != "event" {
        unexecuted := unexecuted + 1;
      }
    }
    assert edges[..|edges|] == edges;
    return Some(sum), failed, unexecuted;
  }

  /** Every message of every node can be drawn. */
  ghost predicate MessagesFit(nodes: seq<TraceNode>)
    requires Forward(nodes)
  {
    forall v :: IsMessage(nodes, v) ==> VisitFits(nodes, v)
  }

  lemma WalkFitsIffMessagesFit(nodes: seq<TraceNode>, parents: seq<Visit>)
    requires Tree(nodes, parents) && Forward(nodes)
    ensures VisitsFit(nodes, Walk(nodes, 0, 0)) <==> MessagesFit(nodes)
  {
    var walk := Walk(nodes, 0, 0);
    if VisitsFit(nodes, walk) {
      forall v | IsMessage(nodes, v) ensures VisitFits(nodes, v) {
        VisitedOnce(nodes, parents, v);
        WalkCounts(nodes, 0, 0, v);
        assert v in multiset(walk);
        var k :| 0 <= k < |walk| && walk[k] == v;
      }
    }
    if MessagesFit(nodes) {
      forall k | 0 <= k < |walk| ensures VisitFits(nodes, walk[k]) {
        WalkIsAll(nodes, parents);
        assert walk[k] in multiset(walk);
        RowsCount(nodes, |nodes|, walk[k]);
      }
    }
  }

  /** The first edge, from whatever triggered the root. */
  method DrawRoot(view: TraceView, root: Transaction, d: Decoders) returns (ok: bool)
    requires PartiesFit(view.parties, d) && view.edges == [] && root.hash.Some?
    modifies view
    ensures PartiesFit(view.parties, d)
    ensures ok <==> RootFits(root)
    ensures ok ==> |view.edges| == 1 && RootEdge(root, d, view.parties, view.edges[0])
  {
    var dst := view.PartyIndex(AccountOf(root), d);
    if root.inMsg.None? {
      view.edges := [TraceEdge(0, dst, "tick-tock", [], 0, 0, Some(TraceTxOf(root)))];
      return true;
    }
    var m := root.inMsg.value;
    var src := view.PartyIndex(OrElse(m.src, ""), d);
    var movements := MessageMovements(m);
    if movements.Err? { return false; }
    var op := MessageOp(d, m, OrElse(m.src, ""), AccountOf(root));
    view.edges := [TraceEdge(src, dst, op, movements.value, m.fwdFee, 0, Some(TraceTxOf(root)))];
    return true;
  }

  lemma RootEdgeStays(root: Transaction, d: Decoders, parties: seq<TraceParty>, parties': seq<TraceParty>, e: TraceEdge)
    requires RootEdge(root, d, parties, e) && parties <= parties'
    ensures RootEdge(root, d, parties', e)
  {}

  /** `flatten`: succeeds exactly when every amount and hash is well formed and the fees fit; then
      every message is drawn once, in depth-first order, and nothing is lost or counted twice. */
  method Flatten(nodes: seq<TraceNode>, ghost parents: seq<Visit>, truncated: bool, d: Decoders) returns (r: Option<AccountTrace>)
    requires nodes != [] ==> Tree(nodes, parents) && Forward(nodes)
    ensures r.Some? <==> nodes != [] && RootFits(nodes[0].tx) && MessagesFit(nodes) && TraceFees(nodes) <= U128_MAX
    ensures r.Some? ==>
      && Some(r.value.root) == nodes[0].tx.hash && r.value.truncated == truncated
      && PartiesFit(r.value.parties, d) && r.value.edges != [] && RootEdge(nodes[0].tx, d, r.value.parties, r.value.edges[0])
      && Drawn(nodes, d, r.value.parties, r.value.edges, 1, Walk(nodes, 0, 0)) && Conserves(nodes, d, r.value.edges)
      && r.value.totalFees == TraceFees(nodes) && r.value.failed == SumNodes(NodeFailed(nodes), |nodes|)
      && r.value.unexecuted == SumNodes(RowWeight(nodes, Unexecuted(nodes, d)), |nodes|)
  {
    if nodes == [] || nodes[0].tx.hash.None? { return None; }
    var view := new TraceView();
    var rooted := DrawRoot(view, nodes[0].tx, d);
    if !rooted { return None; }
    ghost var parties0, edge0 := view.parties, view.edges[0];
    WalkFitsIffMessagesFit(nodes, parents);
    var walked := view.WalkOut(nodes, d, 0);
    if !walked { return None; }
    RootEdgeStays(nodes[0].tx, d, parties0, view.parties, edge0);
    DrawingConserves(nodes, parents, d, view.parties, view.edges);
    var fees, failed, unexecuted := AddUp(view.edges);
    if fees.None? { return None; }
    return Some(AccountTrace(nodes[0].tx.hash.value, view.parties, view.edges, fees.value, failed, unexecuted, truncated));
  }

  /** The walk and the flattening together: a trace shows at most 64 transactions, and one that is
      not truncated shows the answer to every internal message's lookup. */
  method TraceTransaction(root: Transaction, lookup: Lookup, d: Decoders)
    returns (r: Option<AccountTrace>, ghost nodes: seq<TraceNode>)
    ensures r.Some? ==>
      && nodes != [] && nodes[0].tx == root && Forward(nodes) && WithinLimits(nodes)
      && Drawn(nodes, d, r.value.parties, r.value.edges, 1, Walk(nodes, 0, 0))
      && Total(EdgeExecuted, r.value.edges) == |nodes| <= TRACE_MAX_TRANSACTIONS
      && r.value.totalFees == TraceFees(nodes)
      && (!r.value.truncated ==> forall v :: IsInternal(nodes, v) ==> Settled(nodes, lookup, v))
  {
    var built, truncated;
    ghost var parents, asked;
    built, truncated, parents, asked := BuildTrace(root, lookup);
    if built.Err? { return None, []; }
    nodes := built.value;
    TreeIsForward(nodes, parents);
    r := Flatten(built.value, parents, truncated, d);
  }

  // ----- the arrows connect -----

  /** One address has one place. */
  lemma PlacesAgree(parties: seq<TraceParty>, d: Decoders, a: nat, b: nat, address: string)
    requires PartiesFit(parties, d) && Named(parties, a, address) && Named(parties, b, address)
    ensures a == b
  {}

  /** Where the edge of a message arrives, the edges of what it caused leave: if the caused transaction
      was triggered by that very message, its own messages leave from the party the message reached. */
  lemma ArrowsConnect(nodes: seq<TraceNode>, parents: seq<Visit>, d: Decoders, parties: seq<TraceParty>,
                      cause: TraceEdge, v: Visit, effect: TraceEdge, u: Visit)
    requires Tree(nodes, parents) && Forward(nodes) && PartiesFit(parties, d)
    requires EdgeIs(nodes, d, parties, cause, v) && EdgeIs(nodes, d, parties, effect, u)
    requires ChildOf(nodes, v, u.node) && nodes[u.node].tx.inMsg == Some(MessageAt(nodes, v))
    ensures cause.dst == effect.src && effect.depth == cause.depth + 1
    ensures cause.tx.Some? && Some(cause.tx.value.hash) == nodes[u.node].tx.hash
  {
    assert Hangs(nodes, parents, v, u.node);
    PlacesAgree(parties, d, cause.dst, effect.src, AccountOf(nodes[u.node].tx));
  }

  /** The root's messages leave from where its trigger arrived. */
  lemma RootConnects(nodes: seq<TraceNode>, d: Decoders, parties: seq<TraceParty>, first: TraceEdge, effect: TraceEdge, u: Visit)
    requires Forward(nodes) && nodes != [] && PartiesFit(parties, d) && u.node == 0
    requires RootEdge(nodes[0].tx, d, parties, first) && EdgeIs(nodes, d, parties, effect, u)
    ensures first.dst == effect.src
    ensures nodes[0].tx.inMsg.Some? && nodes[0].tx.inMsg.value.dst.Some? ==>
      first.dst < |parties| && parties[first.dst].address == nodes[0].tx.inMsg.value.dst.value
  {
    PlacesAgree(parties, d, first.dst, effect.src, AccountOf(nodes[0].tx));
  }

  /** A message that goes nowhere on the chain is drawn to the outside world. */
  lemma EventsLeave(nodes: seq<TraceNode>, d: Decoders, parties: seq<TraceParty>, e: TraceEdge, v: Visit)
    requires Forward(nodes) && PartiesFit(parties, d) && EdgeIs(nodes, d, parties, e, v)
    ensures MessageAt(nodes, v).kind.ExtOut? || MessageAt(nodes, v).dst.None? ==> e.dst == 0
    ensures !MessageAt(nodes, v).kind.ExtOut? && MessageAt(nodes, v).dst.Some? ==>
      e.dst < |parties| && parties[e.dst].address == MessageAt(nodes, v).dst.value
  {
    assert Named(parties, 0, "");
    if Destination(MessageAt(nodes, v)) == "" { PlacesAgree(parties, d, e.dst, 0, ""); }
  }

  /** A drawn edge, field by field. */
  lemma EdgeTells(nodes: seq<TraceNode>, d: Decoders, parties: seq<TraceParty>, e: TraceEdge, v: Visit)
    requires Forward(nodes) && EdgeIs(nodes, d, parties, e, v)
    ensures var m := MessageAt(nodes, v);
      && (m.bounced ==> e.op == "bounce") && (!m.bounced && m.kind.ExtOut? ==> e.op == "event")
      && e.fwdFee == m.fwdFee && Carries(m, e.movements) && e.depth == nodes[v.node].depth + 1
      && (e.tx.Some? <==> HasChild(nodes, v))
    ensures HasChild(nodes, v) ==>
      var tx := nodes[nodes[v.node].children[v.message]].tx;
      && Some(e.tx.value.hash) == tx.hash && e.tx.value.lt == tx.lt && e.tx.value.timeUnix == tx.now
      && e.tx.value.feeNative == tx.totalFees && e.tx.value.failure == FailureReason(tx)
      && (e.tx.value.success <==> e.tx.value.failure.None?)
  {
    MovementListCarries(MessageAt(nodes, v));
  }
}
