/** A one-use risk grant is fresh when it is used: the blockers and reservations it was shown
    are still exactly the ones in force, and its nonce is never spent again. */
module GrantFreshness {
  import opened Wrappers
  import opened Bytes
  import opened Affordability
  import opened Sorting
  import opened Digests
  import opened Delivery
  import opened Replay
  import opened JournalSafety

  // ----- the rows a map yields -----

  lemma {:induction false} BlockersOfMember(m: RecordMap, keys: seq<Bytes32>, scope: Option<Scope>, row: BlockerRow)
    requires forall k :: k in keys ==> k in m
    ensures row in BlockersOf(m, keys, scope) <==>
      row.recordId in keys && Selected(m[row.recordId], scope)
      && row == BlockerRow(row.recordId, m[row.recordId].tag, m[row.recordId].prepared.extMsgHash)
  {
    if keys != [] {
      assert forall k :: k in keys <==> k == keys[0] || k in keys[1..];
      BlockersOfMember(m, keys[1..], scope, row);
    }
  }

  lemma BlockersMember(m: RecordMap, scope: Option<Scope>, row: BlockerRow)
    ensures row in Blockers(m, scope) <==>
      row.recordId in m && Selected(m[row.recordId], scope)
      && row == BlockerRow(row.recordId, m[row.recordId].tag, m[row.recordId].prepared.extMsgHash)
  {
    BlockersOfMember(m, SortedKeys(m.Keys), scope, row);
  }

  ghost predicate AllSelected(m: RecordMap, scope: Option<Scope>) {
    forall id :: id in m ==> Selected(m[id], scope)
  }

  /** Two fully selected maps with the same blocker rows hold the same records with the same tags. */
  lemma SameRowsSameTags(a: RecordMap, sa: Option<Scope>, b: RecordMap, sb: Option<Scope>, id: Bytes32)
    requires multiset(Blockers(a, sa)) == multiset(Blockers(b, sb))
    requires AllSelected(a, sa) && AllSelected(b, sb)
    ensures id in a <==> id in b
    ensures id in a ==> a[id].tag == b[id].tag
  {
    if id in a {
      var row := BlockerRow(id, a[id].tag, a[id].prepared.extMsgHash);
      BlockersMember(a, sa, row);
      MemberOfPermutation(Blockers(a, sa), Blockers(b, sb), row);
      BlockersMember(b, sb, row);
    }
    if id in b {
      var row := BlockerRow(id, b[id].tag, b[id].prepared.extMsgHash);
      BlockersMember(b, sb, row);
      MemberOfPermutation(Blockers(a, sa), Blockers(b, sb), row);
      BlockersMember(a, sa, row);
    }
  }

  // ----- the records behind the maps -----

  /** The replay holds every blocking record under its own header, at any prefix. */
  lemma HeaderAt(j: Journal, n: nat, id: Bytes32) returns (k: nat)
    requires JournalOk(j) && n <= |Stream(j)| && id in After(j, n).blocking
    ensures k < |j.records| && j.records[k].Id() == id
    ensures After(j, n).blocking[id].prepared == j.records[k].prepared
    ensures id in After(j, n).active && After(j, n).active[id] == After(j, n).blocking[id]
  {
    ReplayTracksRecords(j, n);
    assert id in After(j, n).active;
    k :| 0 <= k < |j.records| && j.records[k].Id() == id;
    assert Tracked(j.records[k], n, After(j, n));
  }

  lemma HeadersAgree(j: Journal, g: nat, n: nat, id: Bytes32)
    requires JournalOk(j) && g <= |Stream(j)| && n <= |Stream(j)|
    requires id in After(j, g).blocking && id in After(j, n).blocking
    ensures After(j, g).blocking[id].prepared == After(j, n).blocking[id].prepared
  {
    var k := HeaderAt(j, g, id);
    var l := HeaderAt(j, n, id);
    assert k == l;
  }

  lemma BlockingSelected(j: Journal, n: nat, scope: Option<Scope>)
    requires JournalOk(j) && n <= |Stream(j)|
    requires scope.Some? ==> |j.records| > 0 && scope.value == j.records[0].prepared.ticket.SigningScope()
    ensures AllSelected(After(j, n).blocking, scope)
  {
    ReplayTracksRecords(j, n);
    forall id | id in After(j, n).blocking ensures Selected(After(j, n).blocking[id], scope) {
      BlockingEntries(j, n, After(j, n), id);
    }
  }

  lemma SameRowsSameMaps(a: RecordMap, sa: Option<Scope>, b: RecordMap, sb: Option<Scope>)
    requires multiset(Blockers(a, sa)) == multiset(Blockers(b, sb))
    requires AllSelected(a, sa) && AllSelected(b, sb)
    requires forall id :: id in a && id in b ==> a[id].prepared == b[id].prepared
    ensures a == b
  {
    forall id ensures id in a <==> id in b { SameRowsSameTags(a, sa, b, sb, id); }
    forall id | id in a ensures a[id] == b[id] { SameRowsSameTags(a, sa, b, sb, id); }
  }

  /** Equal blocker digests at two prefixes mean equal blocking maps. */
  lemma EqualDigestsEqualMaps(j: Journal, g: nat, n: nat, sg: Option<Scope>, sn: Option<Scope>, digest: Digest)
    requires JournalOk(j) && g <= |Stream(j)| && n <= |Stream(j)|
    requires AllSelected(After(j, g).blocking, sg) && AllSelected(After(j, n).blocking, sn)
    requires BlockerSetDigest(Blockers(After(j, g).blocking, sg)) == Ok(digest)
    requires BlockerSetDigest(Blockers(After(j, n).blocking, sn)) == Ok(digest)
    ensures After(j, g).blocking == After(j, n).blocking
  {
    var a, b := After(j, g).blocking, After(j, n).blocking;
    SameDigestSameRows(Blockers(a, sg), Blockers(b, sn), digest);
    forall id | id in a && id in b ensures a[id].prepared == b[id].prepared {
      HeadersAgree(j, g, n, id);
    }
    SameRowsSameMaps(a, sg, b, sn);
  }

  lemma SameDigestSameRows(a: seq<BlockerRow>, b: seq<BlockerRow>, digest: Digest)
    requires BlockerSetDigest(a) == Ok(digest) && BlockerSetDigest(b) == Ok(digest)
    ensures multiset(a) == multiset(b)
  {
    BlockerSetDigestCanonical(a, b);
  }

  // ----- the origin and the use of a grant -----

  /** Every grant in force was granted by an earlier event. */
  lemma {:induction false} GrantOrigin(j: Journal, n: nat, nonce: Bytes32) returns (g: nat)
    requires JournalOk(j) && n <= |Stream(j)| && nonce in After(j, n).grants
    ensures g < n && Stream(j)[g].IsGrant() && Stream(j)[g].risk.action.grant == After(j, n).grants[nonce]
    ensures After(j, n).grants[nonce].oneUseNonce == nonce
  {
    AfterEffect(j, n - 1);
    if Stream(j)[n - 1].IsGrant() && Stream(j)[n - 1].risk.action.grant.oneUseNonce == nonce {
      g := n - 1;
    } else {
      g := GrantOrigin(j, n - 1, nonce);
    }
  }

  lemma {:induction false} ConsumedStays(j: Journal, m: nat, n: nat)
    requires JournalOk(j) && m <= n <= |Stream(j)|
    ensures After(j, m).consumed <= After(j, n).consumed
    decreases n - m
  {
    if m < n {
      ConsumedStays(j, m, n - 1);
      AfterEffect(j, n - 1);
    }
  }

  /** No nonce is spent twice. */
  lemma NonceSpentOnce(j: Journal, i: nat, l: nat)
    requires JournalOk(j) && i < l < |Stream(j)| && Stream(j)[i].IsConsumption() && Stream(j)[l].IsConsumption()
    ensures Stream(j)[i].risk.action.consumption.oneUseNonce != Stream(j)[l].risk.action.consumption.oneUseNonce
  {
    AfterEffect(j, i);
    AfterEffect(j, l);
    ConsumedStays(j, i + 1, l);
  }

  /** A consumption is never the last event, and the next one is the Prepared it authorizes. */
  lemma ConsumptionIsAdjacent(j: Journal, i: nat)
    requires JournalOk(j) && i < |Stream(j)| && Stream(j)[i].IsConsumption()
    ensures i + 1 < |Stream(j)| && Stream(j)[i + 1].IsPrepared()
    ensures After(j, i + 1).pending.Some?
    ensures Stream(j)[i + 1].prepared.ticket.recordId == Stream(j)[i].risk.action.consumption.newRecordId
    ensures Stream(j)[i + 1].prepared.ticket.Digest() == Ok(Stream(j)[i].risk.action.consumption.newTicketDigest)
  {
    var s := Stream(j);
    AfterEffect(j, i);
    assert s[..|s|] == s;
    if i + 1 < |s| {
      AfterEffect(j, i + 1);
      PreparedNamesConsumption(j, i + 1);
    }
  }

  lemma RecordScope(j: Journal, n: nat)
    requires JournalOk(j) && n < |Stream(j)| && Stream(j)[n].DeliveryItem?
    ensures |j.records| > 0
    ensures Stream(j)[n].prepared.ticket.SigningScope() == j.records[0].prepared.ticket.SigningScope()
  {
    var k, m := ItemOrigin(j, n);
  }

  /** When a grant is used, what blocks and what is reserved is what it was granted against:
      the replay holds the same blocking map, hence the same rows and reservations. */
  lemma GrantIsFresh(j: Journal, i: nat) returns (g: nat)
    requires JournalOk(j) && i < |Stream(j)| && Stream(j)[i].IsConsumption()
    ensures g < i && Stream(j)[g].IsGrant()
    ensures Stream(j)[g].risk.action.grant.Authorizes(Stream(j)[i].risk.action.consumption)
    ensures After(j, g).blocking != map[]
    ensures After(j, g).blocking == After(j, i + 1).blocking
    ensures Blockers(After(j, g).blocking, None) == Blockers(After(j, i + 1).blocking, None)
    ensures Outstanding(After(j, g).blocking, None) == Outstanding(After(j, i + 1).blocking, None)
  {
    var nonce := Stream(j)[i].risk.action.consumption.oneUseNonce;
    AfterEffect(j, i);
    g := GrantOrigin(j, i, nonce);
    var grant := Stream(j)[g].risk.action.grant;
    ConsumptionIsAdjacent(j, i);
    PendingFromConsumption(j, i + 1);
    PreparedNamesConsumption(j, i + 1);
    RecordScope(j, i + 1);
    var scope := Some(Stream(j)[i + 1].prepared.ticket.SigningScope());
    GrantNamesBlockers(j, g);
    UseNamesBlockers(grant, Stream(j)[i + 1].prepared, After(j, i + 1).blocking);
    BlockingSelected(j, g, None);
    BlockingSelected(j, i + 1, scope);
    EqualDigestsEqualMaps(j, g, i + 1, None, scope, grant.oldBlockerSetDigest);
  }

  lemma GrantNamesBlockers(j: Journal, g: nat)
    requires JournalOk(j) && g < |Stream(j)| && Stream(j)[g].IsGrant()
    ensures BlockerSetDigest(Blockers(After(j, g).blocking, None)) == Ok(Stream(j)[g].risk.action.grant.oldBlockerSetDigest)
    ensures After(j, g).blocking != map[]
  {
    AfterPermits(j, g);
    var blocking := After(j, g).blocking;
    assert Blockers(blocking, None) != [];
    BlockersMember(blocking, None, Blockers(blocking, None)[0]);
  }

  lemma UseNamesBlockers(grant: RiskGrant, p: PreparedRecord, blocking: RecordMap)
    requires GrantStateError(grant, p, blocking).None?
    ensures BlockerSetDigest(Blockers(blocking, Some(p.ticket.SigningScope()))) == Ok(grant.oldBlockerSetDigest)
  {}

  // ----- what may happen between granting and using -----

  /** Delivery evidence only ever climbs, except that an attempt may follow an attempt. */
  function Rank(tag: EvidenceTag): nat {
    match tag
    case Prepared => 0
    case AttemptStarted => 1
    case MayHaveBroadcast => 2
    case NodeResponseObserved => 2
    case EndpointReportedSuccess => 3
    case EndpointReportedFailedOnChain => 3
    case _ => 4
  }

  lemma TransitionsClimb(previous: Evidence, next: Evidence)
    requires ValidTransition(previous, next)
    ensures Rank(previous.Tag()) < Rank(next.Tag()) || (previous.Attempt? && next.Attempt?)
  {}

  /** How far the replay has seen a record get. */
  ghost function RankAt(j: Journal, n: nat, id: Bytes32): nat
    requires JournalOk(j) && n <= |Stream(j)| && id in After(j, n).active
  {
    Rank(After(j, n).active[id].tag)
  }

  /** One item raises the rank of the record it delivers to, unless it retries. */
  lemma RankStep(j: Journal, n: nat, id: Bytes32)
    requires JournalOk(j) && n < |Stream(j)| && id in After(j, n).active
    ensures id in After(j, n + 1).active
    ensures RankAt(j, n, id) <= RankAt(j, n + 1, id)
    ensures Stream(j)[n].IsDeliveryOf(id) ==>
      RankAt(j, n, id) < RankAt(j, n + 1, id)
      || (RankAt(j, n, id) == Rank(AttemptStarted) && Stream(j)[n].event.evidence.Attempt?)
  {
    var st, x := After(j, n), Stream(j)[n];
    AfterEffect(j, n);
    if x.IsDeliveryOf(id) {
      ReplayTracksRecords(j, n);
      DeliveryWasBlocking(j, n, st);
      var k := HeaderAt(j, n, id);
      var previous: Evidence :| previous.Tag() == st.blocking[id].tag && ValidTransition(previous, x.event.evidence);
      TransitionsClimb(previous, x.event.evidence);
    }
  }

  lemma RankGrows(j: Journal, m: nat, n: nat, id: Bytes32)
    requires JournalOk(j) && m <= n <= |Stream(j)| && id in After(j, m).active
    ensures id in After(j, n).active
    ensures RankAt(j, m, id) <= RankAt(j, n, id)
  {
    for k := m to n
      invariant id in After(j, k).active && RankAt(j, m, id) <= RankAt(j, k, id)
    {
      RankStep(j, k, id);
    }
  }

  lemma RankPinned(j: Journal, g: nat, n: nat, id: Bytes32)
    requires JournalOk(j) && g <= |Stream(j)| && n <= |Stream(j)|
    requires After(j, g).blocking == After(j, n).blocking && id in After(j, g).blocking
    ensures id in After(j, g).active && id in After(j, n).active
    ensures RankAt(j, g, id) == RankAt(j, n, id) == Rank(After(j, g).blocking[id].tag)
  {
    var k := HeaderAt(j, g, id);
    var l := HeaderAt(j, n, id);
  }

  /** A record that ends where it began never moved. */
  lemma RankFlat(j: Journal, g: nat, l: nat, n: nat, id: Bytes32)
    requires JournalOk(j) && g <= l < n <= |Stream(j)| && id in After(j, g).active && id in After(j, n).active
    requires RankAt(j, g, id) == RankAt(j, n, id)
    ensures id in After(j, l).active && id in After(j, l + 1).active
    ensures RankAt(j, l, id) == RankAt(j, l + 1, id) == RankAt(j, g, id)
  {
    RankGrows(j, g, l, id);
    RankGrows(j, l, l + 1, id);
    RankGrows(j, l + 1, n, id);
  }

  /** Between a grant and its use, a record that blocked at the grant can only have been retried. */
  lemma OnlyRetriesInBetween(j: Journal, g: nat, i: nat, l: nat, id: Bytes32)
    requires JournalOk(j) && g < l < i < |Stream(j)|
    requires After(j, g).blocking == After(j, i + 1).blocking && id in After(j, g).blocking
    requires Stream(j)[l].IsDeliveryOf(id)
    ensures Stream(j)[l].event.evidence.Attempt?
    ensures After(j, g).blocking[id].tag == AttemptStarted
  {
    RankPinned(j, g, i + 1, id);
    RankFlat(j, g, l, i + 1, id);
    RankStep(j, l, id);
  }

  /** Grant freshness, all at once: every use spends an earlier grant, against the same blocking
      records, of which each has at most been retried in between. */
  lemma UsesAreFresh(j: Journal, i: nat) returns (g: nat)
    requires JournalOk(j) && i < |Stream(j)| && Stream(j)[i].IsConsumption()
    ensures g < i && Stream(j)[g].IsGrant()
    ensures Stream(j)[g].risk.action.grant.Authorizes(Stream(j)[i].risk.action.consumption)
    ensures After(j, g).blocking == After(j, i + 1).blocking != map[]
    ensures forall l, id :: g < l < i && id in After(j, g).blocking && Stream(j)[l].IsDeliveryOf(id) ==>
      Stream(j)[l].event.evidence.Attempt?
  {
    g := GrantIsFresh(j, i);
    forall l, id | g < l < i && id in After(j, g).blocking && Stream(j)[l].IsDeliveryOf(id)
      ensures Stream(j)[l].event.evidence.Attempt?
    {
      OnlyRetriesInBetween(j, g, i, l, id);
    }
  }
}
