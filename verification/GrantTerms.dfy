/** What a risk grant binds, field by field, and that one can always be made while something blocks. */
module GrantTerms {
  import opened Wrappers
  import opened Bytes
  import opened Amounts
  import opened Affordability
  import opened Sorting
  import opened Digests
  import opened DigestExistence
  import opened Delivery
  import opened Replay
  import opened JournalSafety
  import opened GrantFreshness
  import opened Envelope
  import opened Funding

  // ----- what the two grant checks ask for -----

  /** Some record of the map still blocks in the scope, if one is given. */
  ghost predicate SomethingCounts(m: RecordMap, scope: Option<Scope>) {
    exists id :: id in m && Counts(m[id], scope)
  }

  lemma BlockersEmpty(m: RecordMap, scope: Option<Scope>)
    ensures Blockers(m, scope) == [] <==> !SomethingCounts(m, scope)
  {
    var rows := Blockers(m, scope);
    if rows != [] {
      BlockersMember(m, scope, rows[0]);
      assert Counts(m[rows[0].recordId], scope);
    }
    if id :| id in m && Counts(m[id], scope) {
      BlockersMember(m, scope, BlockerRow(id, m[id].tag, m[id].prepared.extMsgHash));
    }
  }

  /** A grant passes against a state exactly when something blocks and it names, by their digests,
      all that blocks and all that is reserved. */
  lemma GrantOldStateExact(grant: RiskGrant, blocking: RecordMap)
    ensures GrantOldStateError(grant, blocking).None? <==>
      && SomethingCounts(blocking, None)
      && BlockerSetDigest(Blockers(blocking, None)) == Ok(grant.oldBlockerSetDigest)
      && ReservationSetDigest(Outstanding(blocking, None)) == Ok(grant.oldReservationSetDigest)
  {
    BlockersEmpty(blocking, None);
  }

  lemma GrantChecksExact(grant: RiskGrant, recordId: Bytes32, ticket: Result<Digest, DigestError>, idle: bool, outside: bool,
                         blockers: Result<Digest, DigestError>, reservations: Result<Digest, DigestError>,
                         overlap: Result<Digest, DigestError>)
    ensures GrantChecks(grant, recordId, ticket, idle, outside, blockers, reservations, overlap).None? <==>
      && !idle && !outside && blockers == Ok(grant.oldBlockerSetDigest) && reservations == Ok(grant.oldReservationSetDigest)
      && overlap == Ok(grant.overlapReservationSetDigest) && ticket == Ok(grant.newTicketDigest) && recordId == grant.newRecordId
  {}

  /** A use passes exactly when the same still holds in the new record's scope, the overlap is
      outstanding and is the one granted, and so is the ticket. */
  lemma GrantStateExact(grant: RiskGrant, p: PreparedRecord, blocking: RecordMap, scope: Option<Scope>)
    requires scope == Some(p.ticket.SigningScope())
    ensures GrantStateError(grant, p, blocking).None? <==>
      && SomethingCounts(blocking, scope)
      && BlockerSetDigest(Blockers(blocking, scope)) == Ok(grant.oldBlockerSetDigest)
      && ReservationSetDigest(Outstanding(blocking, scope)) == Ok(grant.oldReservationSetDigest)
      && AllIn(p.provenance.authorizedOverlap, Outstanding(blocking, scope))
      && OverlapSetDigest(p.provenance.authorizedOverlap) == Ok(grant.overlapReservationSetDigest)
      && p.ticket.Digest() == Ok(grant.newTicketDigest) && p.ticket.recordId == grant.newRecordId
  {
    BlockersEmpty(blocking, scope);
    var blockers, reservations, overlap := Blockers(blocking, scope), Outstanding(blocking, scope), p.provenance.authorizedOverlap;
    GrantChecksExact(grant, p.ticket.recordId, p.ticket.Digest(), blockers == [],
                     exists i :: 0 <= i < |overlap| && overlap[i] !in reservations,
                     BlockerSetDigest(blockers), ReservationSetDigest(reservations), OverlapSetDigest(overlap));
  }

  predicate AllIn(overlap: seq<Reservation>, rows: seq<Reservation>) {
    forall i :: 0 <= i < |overlap| ==> overlap[i] in rows
  }

  /** A grant authorizes one consumption only: the one naming its nonce, its record and its ticket. */
  lemma AuthorizesOneConsumption(grant: RiskGrant, c: RiskGrantConsumption)
    ensures grant.Authorizes(c) <==> c == RiskGrantConsumption(grant.oneUseNonce, grant.newRecordId, grant.newTicketDigest)
  {}

  // ----- what a used grant bound -----

  lemma GrantVersion(j: Journal, g: nat)
    requires JournalOk(j) && g < |Stream(j)| && Stream(j)[g].IsGrant()
    ensures Stream(j)[g].risk.action.grant.warningVersion == 1
    ensures ReservationSetDigest(Outstanding(After(j, g).blocking, None)) == Ok(Stream(j)[g].risk.action.grant.oldReservationSetDigest)
  {
    AfterStep(j, g);
    AfterPermits(j, g);
    GrantOldStateExact(Stream(j)[g].risk.action.grant, After(j, g).blocking);
  }

  lemma UseTerms(j: Journal, n: nat)
    requires JournalOk(j) && n < |Stream(j)| && Stream(j)[n].IsPrepared() && After(j, n).pending.Some?
    ensures var grant, p := After(j, n).pending.value.0, Stream(j)[n].prepared;
      && grant.newRecordId == p.ticket.recordId && p.ticket.Digest() == Ok(grant.newTicketDigest)
      && OverlapSetDigest(p.provenance.authorizedOverlap) == Ok(grant.overlapReservationSetDigest)
    ensures WaivesOutstanding(j, n)
  {
    PreparedNamesConsumption(j, n);
    RecordScope(j, n);
    var p := Stream(j)[n].prepared;
    var scope := Some(p.ticket.SigningScope());
    GrantStateExact(After(j, n).pending.value.0, p, After(j, n).blocking, scope);
    forall i | 0 <= i < |p.provenance.authorizedOverlap|
      ensures ReservedByUnresolved(j.records, n, p.provenance.authorizedOverlap[i])
    {
      OutstandingMember(j, n, scope, p.provenance.authorizedOverlap[i]);
    }
  }

  /** Every waived row is reserved by a record still unresolved. */
  ghost predicate WaivesOutstanding(j: Journal, n: nat)
    requires n < |Stream(j)| && Stream(j)[n].IsPrepared()
  {
    var overlap := Stream(j)[n].prepared.provenance.authorizedOverlap;
    forall i :: 0 <= i < |overlap| ==> ReservedByUnresolved(j.records, n, overlap[i])
  }

  /** Signing past a blocker, term by term: an earlier grant carries the same nonce, record id and
      ticket digest as the consumption, these are the next record's own, and the reservations and the
      overlap it was granted for are the ones in force and the ones waived. */
  lemma UsedGrantTerms(j: Journal, i: nat) returns (g: nat)
    requires JournalOk(j) && i < |Stream(j)| && Stream(j)[i].IsConsumption()
    ensures g < i && Stream(j)[g].IsGrant() && i + 1 < |Stream(j)| && Stream(j)[i + 1].IsPrepared()
    ensures var grant, c, p := Stream(j)[g].risk.action.grant, Stream(j)[i].risk.action.consumption, Stream(j)[i + 1].prepared;
      && grant.warningVersion == 1 && grant.oneUseNonce == c.oneUseNonce
      && grant.newRecordId == c.newRecordId == p.ticket.recordId
      && grant.newTicketDigest == c.newTicketDigest && p.ticket.Digest() == Ok(grant.newTicketDigest)
      && ReservationSetDigest(Outstanding(After(j, g).blocking, None)) == Ok(grant.oldReservationSetDigest)
      && OverlapSetDigest(p.provenance.authorizedOverlap) == Ok(grant.overlapReservationSetDigest)
    ensures WaivesOutstanding(j, i + 1)
  {
    AfterEffect(j, i);
    g := GrantOrigin(j, i, Stream(j)[i].risk.action.consumption.oneUseNonce);
    ConsumptionIsAdjacent(j, i);
    GrantVersion(j, g);
    UseTerms(j, i + 1);
  }

  // ----- a grant can be made -----

  lemma {:induction false} BlockersOfCounting(m: RecordMap, keys: seq<Bytes32>)
    requires Distinct(keys) && forall k :: k in keys ==> k in m
    ensures |BlockersOf(m, keys, None)| == |Counting(m, keys, None)|
    ensures DigestExistence.DistinctIds(BlockersOf(m, keys, None))
    ensures forall i :: 0 <= i < |BlockersOf(m, keys, None)| ==>
      BlockersOf(m, keys, None)[i].evidence.IsBlocking() && BlockersOf(m, keys, None)[i].recordId in keys
  {
    if keys != [] {
      assert keys[0] in keys && keys[0] !in keys[1..];
      assert forall k :: k in keys[1..] ==> k in keys;
      BlockersOfCounting(m, keys[1..]);
    }
  }

  lemma {:induction false} ReservationsOfCounting(m: RecordMap, keys: seq<Bytes32>)
    requires forall k :: k in keys ==> k in m && |m[k].prepared.reservations| <= 2
    ensures |ReservationsOf(m, keys, None)| <= 2 * |Counting(m, keys, None)|
  {
    if keys != [] {
      assert keys[0] in keys;
      ReservationsOfCounting(m, keys[1..]);
    }
  }

  lemma {:induction false} UnresolvedAreFew(records: seq<SendRecord>, n: nat)
    ensures |UnresolvedIds(records, n)| <= |records|
  {
    if records != [] { UnresolvedAreFew(records[1..], n); }
  }

  const MAX_RECORDS := 13_256_071

  /** The map's counting keys are as many as the journal's unresolved records. */
  lemma FewCounting(j: Journal, n: nat)
    requires JournalOk(j) && n <= |Stream(j)|
    ensures |Counting(After(j, n).blocking, SortedKeys(After(j, n).blocking.Keys), None)| <= |j.records|
  {
    var keys := SortedKeys(After(j, n).blocking.Keys);
    UnresolvedAreCounting(j, n, None);
    UnresolvedAreFew(j.records, n);
    CountingMember(After(j, n).blocking, keys, None);
    SameMembersPermute(Counting(After(j, n).blocking, keys, None), UnresolvedIds(j.records, n));
    PermutationLength(Counting(After(j, n).blocking, keys, None), UnresolvedIds(j.records, n));
  }

  lemma BlockerDigestExists(m: RecordMap)
    requires |Counting(m, SortedKeys(m.Keys), None)| <= MAX_RECORDS
    ensures BlockerSetDigest(Blockers(m, None)).Ok?
  {
    BlockersOfCounting(m, SortedKeys(m.Keys));
    BlockersOfOrdinarySize(Blockers(m, None));
  }

  lemma ReservationDigestExists(m: RecordMap)
    requires |Counting(m, SortedKeys(m.Keys), None)| <= MAX_RECORDS
    requires forall k :: k in m ==> |m[k].prepared.reservations| <= 2
    requires Distinct(Outstanding(m, None))
    requires forall row :: row in Outstanding(m, None) && row.kind.NativeFee? ==> row.amount.asset.Native?
    ensures ReservationSetDigest(Outstanding(m, None)).Ok?
  {
    ReservationsOfCounting(m, SortedKeys(m.Keys));
    ReservationsOfOrdinarySize(ReservationSet, Outstanding(m, None));
  }

  /** What blocks and what is reserved at any prefix has digests, up to thirteen million records. */
  lemma StateDigestsExist(j: Journal, n: nat)
    requires JournalOk(j) && n <= |Stream(j)| && |j.records| <= MAX_RECORDS
    ensures BlockerSetDigest(Blockers(After(j, n).blocking, None)).Ok?
    ensures ReservationSetDigest(Outstanding(After(j, n).blocking, None)).Ok?
  {
    var m := After(j, n).blocking;
    FewCounting(j, n);
    BlockerDigestExists(m);
    forall k | k in m ensures |m[k].prepared.reservations| <= 2 {
      BlockingShape(j, n, k);
      OwnRows(m[k].prepared);
    }
    OutstandingDistinct(j, n, None);
    ReservationDigestExists(m);
  }

  /** While something blocks, a grant naming it exists and is accepted: any unused nonce will do. */
  lemma GrantIsAvailable(j: Journal, recordId: Bytes32, ticket: Digest, overlap: Digest, nonce: Bytes32) returns (grant: RiskGrant)
    requires JournalOk(j) && |j.records| <= MAX_RECORDS && NextSeq(j) <= U64_MAX
    requires nonce !in Final(j).grants
    requires exists k :: 0 <= k < |j.records| && Unresolved(j.records[k], |Stream(j)|)
    ensures grant.newRecordId == recordId && grant.newTicketDigest == ticket && grant.overlapReservationSetDigest == overlap
    ensures grant.oneUseNonce == nonce && JournalOk(WithRisk(j, Granted(grant)))
  {
    var n := |Stream(j)|;
    FinalIsAfterAll(j);
    StateDigestsExist(j, n);
    UnresolvedAreCounting(j, n, None);
    UnresolvedIdsMember(j.records, n);
    var m := After(j, n).blocking;
    var k :| 0 <= k < |j.records| && Unresolved(j.records[k], n);
    assert j.records[k].Id() in UnresolvedIds(j.records, n);
    assert SomethingCounts(m, None);
    grant := RiskGrant(BlockerSetDigest(Blockers(m, None)).value, ReservationSetDigest(Outstanding(m, None)).value, ticket,
                       recordId, nonce, RISK_WARNING_VERSION, overlap);
    GrantOldStateExact(grant, m);
    AppendGrantExact(j, grant);
  }
}
