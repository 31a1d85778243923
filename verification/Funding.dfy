/** What the reservations collected from a map of records are, and what a funded Prepared therefore
    guarantees about the records of the journal. */
module Funding {
  import opened Wrappers
  import opened Bytes
  import opened Amounts
  import opened Affordability
  import opened Sorting
  import opened Digests
  import opened Delivery
  import opened Replay
  import opened JournalSafety
  import opened GrantFreshness
  import opened Envelope

  // ----- the reservations of a map -----

  /** The record still blocks, and signs for the scope asked about, if any. */
  predicate Counts(e: Entry, scope: Option<Scope>) {
    && e.tag !in {VerifiedTerminalSuccess, VerifiedTerminalFailedOnChain, NotBroadcast}
    && (scope.None? || e.prepared.ticket.SigningScope() == scope.value)
  }

  /** The ids, each once, of the map's records that count. */
  ghost predicate ListsCounting(m: RecordMap, scope: Option<Scope>, ids: seq<Bytes32>) {
    Distinct(ids) && forall id :: id in ids <==> id in m && Counts(m[id], scope)
  }

  ghost function RowCount(m: RecordMap, r: Reservation, id: Bytes32): nat {
    if id in m then multiset(m[id].prepared.reservations)[r] else 0
  }

  /** How often the record under an id reserves a row. */
  ghost function RowCounts(m: RecordMap, r: Reservation): Bytes32 -> nat {
    (id: Bytes32) => RowCount(m, r, id)
  }

  ghost function RecordUnits(m: RecordMap, overlap: seq<Reservation>, asset: AssetId, id: Bytes32): nat {
    if id in m then ReservedUnits(m[id].prepared.reservations, overlap, asset) else 0
  }

  /** What the record under an id holds of an asset beyond the overlap. */
  ghost function UnitsHeld(m: RecordMap, overlap: seq<Reservation>, asset: AssetId): Bytes32 -> nat {
    (id: Bytes32) => RecordUnits(m, overlap, asset, id)
  }

  /** The listed keys that count. */
  ghost function Counting(m: RecordMap, keys: seq<Bytes32>, scope: Option<Scope>): seq<Bytes32> {
    if keys == [] then []
    else (if keys[0] in m && Counts(m[keys[0]], scope) then [keys[0]] else []) + Counting(m, keys[1..], scope)
  }

  lemma {:induction false} CountingMember(m: RecordMap, keys: seq<Bytes32>, scope: Option<Scope>)
    requires Distinct(keys)
    ensures Distinct(Counting(m, keys, scope))
    ensures forall id :: id in Counting(m, keys, scope) <==> id in keys && id in m && Counts(m[id], scope)
  {
    if keys != [] {
      CountingMember(m, keys[1..], scope);
      assert forall id :: id in keys <==> id == keys[0] || id in keys[1..];
      var rest := Counting(m, keys[1..], scope);
      forall i | 0 <= i < |rest| ensures rest[i] != keys[0] {
        assert rest[i] in rest && keys[0] !in keys[1..];
      }
    }
  }

  /** Two listings of the same members, each once, are permutations. */
  lemma SameMembersPermute(a: seq<Bytes32>, b: seq<Bytes32>)
    requires Distinct(a) && Distinct(b) && forall id :: id in a <==> id in b
    ensures multiset(a) == multiset(b)
  {
    forall id ensures multiset(a)[id] == multiset(b)[id] {
      DistinctCounts(a, id);
      DistinctCounts(b, id);
      assert id in a <==> id in multiset(a);
      assert id in b <==> id in multiset(b);
    }
  }

  lemma {:induction false} ReservationsOfRow(m: RecordMap, keys: seq<Bytes32>, scope: Option<Scope>, r: Reservation)
    requires forall k :: k in keys ==> k in m
    ensures multiset(ReservationsOf(m, keys, scope))[r] == Total(RowCounts(m, r), Counting(m, keys, scope))
  {
    if keys != [] {
      assert keys[0] in keys;
      ReservationsOfRow(m, keys[1..], scope, r);
      var head := if Counts(m[keys[0]], scope) then [keys[0]] else [];
      TotalConcat(RowCounts(m, r), head, Counting(m, keys[1..], scope));
      assert head != [] ==> head[1..] == [];
    }
  }

  /** A row is outstanding exactly as often as the blocking records of the scope reserve it. */
  lemma OutstandingRows(m: RecordMap, scope: Option<Scope>, ids: seq<Bytes32>, r: Reservation)
    requires ListsCounting(m, scope, ids)
    ensures multiset(Outstanding(m, scope))[r] == Total(RowCounts(m, r), ids)
  {
    var keys := SortedKeys(m.Keys);
    ReservationsOfRow(m, keys, scope, r);
    CountingMember(m, keys, scope);
    SameMembersPermute(Counting(m, keys, scope), ids);
    TotalPermutes(RowCounts(m, r), Counting(m, keys, scope), ids);
  }

  lemma {:induction false} ReservationsOfUnits(m: RecordMap, keys: seq<Bytes32>, scope: Option<Scope>,
                                               overlap: seq<Reservation>, asset: AssetId)
    requires forall k :: k in keys ==> k in m
    ensures ReservedUnits(ReservationsOf(m, keys, scope), overlap, asset)
      == Total(UnitsHeld(m, overlap, asset), Counting(m, keys, scope))
  {
    if keys != [] {
      assert keys[0] in keys;
      ReservationsOfUnits(m, keys[1..], scope, overlap, asset);
      var head := if Counts(m[keys[0]], scope) then [keys[0]] else [];
      TotalConcat(UnitsHeld(m, overlap, asset), head, Counting(m, keys[1..], scope));
      assert head != [] ==> head[1..] == [];
      ReservedUnitsConcat(if head != [] then m[keys[0]].prepared.reservations else [], ReservationsOf(m, keys[1..], scope),
                          overlap, asset);
    }
  }

  /** The outstanding units of an asset are the sum of what the blocking records of the scope hold. */
  lemma OutstandingUnits(m: RecordMap, scope: Option<Scope>, ids: seq<Bytes32>, overlap: seq<Reservation>, asset: AssetId)
    requires ListsCounting(m, scope, ids)
    ensures ReservedUnits(Outstanding(m, scope), overlap, asset) == Total(UnitsHeld(m, overlap, asset), ids)
  {
    var keys := SortedKeys(m.Keys);
    ReservationsOfUnits(m, keys, scope, overlap, asset);
    CountingMember(m, keys, scope);
    SameMembersPermute(Counting(m, keys, scope), ids);
    TotalPermutes(UnitsHeld(m, overlap, asset), Counting(m, keys, scope), ids);
  }

  // ----- the reservations of the records -----

  /** Of the events up to sequence number `n`, the record's last is not a final one. */
  ghost predicate Unresolved(r: SendRecord, n: nat) {
    exists m :: 0 <= m < |r.deliveryEvents| && IsLast(r.deliveryEvents, m, n)
      && !r.deliveryEvents[m].evidence.Verified? && !r.deliveryEvents[m].evidence.NotSent?
  }

  /** Event `m` is the last one up to sequence number `n`. */
  predicate IsLast(events: seq<DeliveryEvent>, m: nat, n: nat)
    requires m < |events|
  {
    events[m].journalSeq <= n && (m + 1 < |events| ==> events[m + 1].journalSeq > n)
  }

  /** What the unresolved records reserve of an asset beyond the overlap. */
  ghost function HeldUnits(records: seq<SendRecord>, n: nat, overlap: seq<Reservation>, asset: AssetId): nat {
    if records == [] then 0
    else
      (if Unresolved(records[0], n) then ReservedUnits(records[0].prepared.reservations, overlap, asset) else 0)
      + HeldUnits(records[1..], n, overlap, asset)
  }

  ghost function UnresolvedIds(records: seq<SendRecord>, n: nat): seq<Bytes32> {
    if records == [] then []
    else (if Unresolved(records[0], n) then [records[0].Id()] else []) + UnresolvedIds(records[1..], n)
  }

  lemma LastIsSeen(r: SendRecord, n: nat)
    requires Increasing(r.deliveryEvents)
    ensures Unresolved(r, n) <==>
      Seen(r.deliveryEvents, n) > 0 && r.deliveryEvents[Seen(r.deliveryEvents, n) - 1].evidence.Tag().IsBlocking()
  {
    var events := r.deliveryEvents;
    SeenExact(events, n);
    var c := Seen(events, n);
    if c > 0 { assert events[c - 1].journalSeq <= n && IsLast(events, c - 1, n); }
    forall m | 0 <= m < |events| && IsLast(events, m, n) ensures m == c - 1 {
      assert m < c;
      if m + 1 < |events| { assert !(m + 1 < c); }
    }
  }

  lemma {:induction false} UnresolvedIdsMember(records: seq<SendRecord>, n: nat)
    requires DistinctIds(records)
    ensures Distinct(UnresolvedIds(records, n))
    ensures forall id :: id in UnresolvedIds(records, n) <==>
      exists k :: 0 <= k < |records| && records[k].Id() == id && Unresolved(records[k], n)
  {
    if records != [] {
      UnresolvedIdsMember(records[1..], n);
      var rest := UnresolvedIds(records[1..], n);
      forall i | 0 <= i < |rest| ensures rest[i] != records[0].Id() {
        assert rest[i] in rest;
        var k :| 0 <= k < |records[1..]| && records[1..][k].Id() == rest[i] && Unresolved(records[1..][k], n);
        assert records[1..][k] == records[k + 1];
      }
      forall id ensures id in UnresolvedIds(records, n) <==>
        exists k :: 0 <= k < |records| && records[k].Id() == id && Unresolved(records[k], n)
      {
        if k :| 0 <= k < |records| && records[k].Id() == id && Unresolved(records[k], n) {
          if k > 0 { assert records[1..][k - 1] == records[k]; }
        }
        if id in rest {
          var k :| 0 <= k < |records[1..]| && records[1..][k].Id() == id && Unresolved(records[1..][k], n);
          assert records[k + 1] == records[1..][k];
        }
      }
    }
  }

  lemma {:induction false} HeldIsTotal(records: seq<SendRecord>, n: nat, m: RecordMap, overlap: seq<Reservation>, asset: AssetId)
    requires forall k :: 0 <= k < |records| && Unresolved(records[k], n) ==>
      records[k].Id() in m && m[records[k].Id()].prepared == records[k].prepared
    ensures HeldUnits(records, n, overlap, asset) == Total(UnitsHeld(m, overlap, asset), UnresolvedIds(records, n))
  {
    if records != [] {
      forall k | 0 <= k < |records[1..]| && Unresolved(records[1..][k], n)
        ensures records[1..][k].Id() in m && m[records[1..][k].Id()].prepared == records[1..][k].prepared
      {
        assert records[1..][k] == records[k + 1];
      }
      HeldIsTotal(records[1..], n, m, overlap, asset);
      var head := if Unresolved(records[0], n) then [records[0].Id()] else [];
      TotalConcat(UnitsHeld(m, overlap, asset), head, UnresolvedIds(records[1..], n));
      assert head != [] ==> head[1..] == [];
    }
  }

  /** At every prefix the unresolved records are exactly those the replay counts as blocking. */
  lemma UnresolvedAreCounting(j: Journal, n: nat, scope: Option<Scope>)
    requires JournalOk(j) && n <= |Stream(j)|
    requires scope.Some? ==> |j.records| > 0 && scope.value == j.records[0].prepared.ticket.SigningScope()
    ensures ListsCounting(After(j, n).blocking, scope, UnresolvedIds(j.records, n))
    ensures forall k :: 0 <= k < |j.records| && Unresolved(j.records[k], n) ==>
      j.records[k].Id() in After(j, n).blocking && After(j, n).blocking[j.records[k].Id()].prepared == j.records[k].prepared
  {
    var st := After(j, n);
    ReplayTracksRecords(j, n);
    BlockingSelected(j, n, scope);
    UnresolvedIdsMember(j.records, n);
    forall k | 0 <= k < |j.records|
      ensures Unresolved(j.records[k], n) <==> j.records[k].Id() in st.blocking
      ensures Unresolved(j.records[k], n) ==> st.blocking[j.records[k].Id()].prepared == j.records[k].prepared
    {
      RecordIncreasing(j.records[k]);
      LastIsSeen(j.records[k], n);
      assert Tracked(j.records[k], n, st);
    }
    forall id | id in st.blocking ensures Counts(st.blocking[id], scope) {
      assert Selected(st.blocking[id], scope);
    }
    forall id | id in st.blocking ensures id in UnresolvedIds(j.records, n) {
      var k := HeaderAt(j, n, id);
    }
  }

  /** At every prefix, what the replay holds outstanding is what the unresolved records reserve. */
  lemma OutstandingIsHeld(j: Journal, n: nat, scope: Option<Scope>, overlap: seq<Reservation>, asset: AssetId)
    requires JournalOk(j) && n <= |Stream(j)|
    requires scope.Some? ==> |j.records| > 0 && scope.value == j.records[0].prepared.ticket.SigningScope()
    ensures ReservedUnits(Outstanding(After(j, n).blocking, scope), overlap, asset) == HeldUnits(j.records, n, overlap, asset)
  {
    UnresolvedAreCounting(j, n, scope);
    OutstandingUnits(After(j, n).blocking, scope, UnresolvedIds(j.records, n), overlap, asset);
    HeldIsTotal(j.records, n, After(j, n).blocking, overlap, asset);
  }

  lemma {:induction false} RequestedUnits(rows: seq<Reservation>, amounts: seq<AssetAmount>, asset: AssetId)
    requires |amounts| == |rows| && forall i :: 0 <= i < |rows| ==> amounts[i] == rows[i].amount
    requires DistinctAssets(amounts)
    ensures UnitsFor(amounts, asset) == ReservedUnits(rows, [], asset)
  {
    if rows != [] {
      RequestedUnits(rows[1..], amounts[1..], asset);
      if amounts[0].asset == asset {
        forall k | 0 <= k < |amounts[1..]| ensures amounts[1..][k].asset != asset { assert amounts[1..][k] == amounts[k + 1]; }
        UnitsForAbsent(amounts[1..], asset);
      }
    }
  }

  /** Whoever signs, ordinarily or past a blocker by a grant: the balances it was prepared against
      cover, asset by asset, what every unresolved record reserves beyond the authorized overlap,
      together with its own reservations. */
  lemma PreparedIsFunded(j: Journal, n: nat, asset: AssetId)
    requires JournalOk(j) && n < |Stream(j)| && Stream(j)[n].IsPrepared()
    ensures Covers(j.records, n, Stream(j)[n].prepared, asset)
  {
    var p := Stream(j)[n].prepared;
    AfterPermits(j, n);
    RecordScope(j, n);
    OutstandingIsHeld(j, n, Some(p.ticket.SigningScope()), p.provenance.authorizedOverlap, asset);
    RequestedUnits(p.reservations, Requested(p), asset);
    assert Covered(p.provenance.balances, Outstanding(After(j, n).blocking, Some(p.ticket.SigningScope())),
                   p.provenance.authorizedOverlap, Requested(p), asset);
  }

  // ----- the outstanding rows as a set -----

  /** A record's reservations are its own, and no two are alike. */
  lemma OwnRows(p: PreparedRecord)
    requires PreparedShape(p)
    ensures Distinct(p.reservations)
    ensures forall i :: 0 <= i < |p.reservations| ==> p.reservations[i].recordId == p.ticket.recordId
    ensures forall i :: 0 <= i < |p.reservations| && p.reservations[i].kind.NativeFee? ==> p.reservations[i].amount.asset.Native?
    ensures 1 <= |p.reservations| <= 2
  {
    var rows, value := p.reservations, p.ticket.request.value;
    if !value.asset.Native? {
      CountTwo(rows, Transfer, value);
      CountTwo(rows, NativeFee, TaggedUnits(Native, p.provenance.localFeeCeilingNative));
    }
  }

  lemma {:induction false} OneOwner(m: RecordMap, r: Reservation, ids: seq<Bytes32>)
    requires Distinct(ids)
    requires forall id :: id in ids && id in m ==> RowCount(m, r, id) <= (if id == r.recordId then 1 else 0)
    ensures Total(RowCounts(m, r), ids) <= (if r.recordId in ids then 1 else 0)
  {
    if ids != [] {
      assert forall id :: id in ids[1..] ==> id in ids;
      OneOwner(m, r, ids[1..]);
      assert ids[0] in ids && ids[0] !in ids[1..];
    }
  }

  /** The header a blocking entry carries has passed the record checks. */
  lemma BlockingShape(j: Journal, n: nat, id: Bytes32)
    requires JournalOk(j) && n <= |Stream(j)| && id in After(j, n).blocking
    ensures PreparedShape(After(j, n).blocking[id].prepared) && After(j, n).blocking[id].prepared.ticket.recordId == id
  {
    var k := HeaderAt(j, n, id);
    assert StaticOk(j.records[k]);
  }

  /** No reservation is outstanding twice, and every outstanding fee is native. */
  lemma OutstandingDistinct(j: Journal, n: nat, scope: Option<Scope>)
    requires JournalOk(j) && n <= |Stream(j)|
    requires scope.Some? ==> |j.records| > 0 && scope.value == j.records[0].prepared.ticket.SigningScope()
    ensures Distinct(Outstanding(After(j, n).blocking, scope))
    ensures forall row :: row in Outstanding(After(j, n).blocking, scope) && row.kind.NativeFee? ==> row.amount.asset.Native?
  {
    var m, ids := After(j, n).blocking, UnresolvedIds(j.records, n);
    UnresolvedAreCounting(j, n, scope);
    forall row: Reservation
      ensures multiset(Outstanding(m, scope))[row] <= 1
      ensures row in Outstanding(m, scope) && row.kind.NativeFee? ==> row.amount.asset.Native?
    {
      OutstandingRows(m, scope, ids, row);
      forall id | id in ids
        ensures RowCount(m, row, id) <= (if id == row.recordId then 1 else 0)
        ensures RowCount(m, row, id) > 0 && row.kind.NativeFee? ==> row.amount.asset.Native?
      {
        BlockingShape(j, n, id);
        OwnRows(m[id].prepared);
        DistinctCounts(m[id].prepared.reservations, row);
        assert row in m[id].prepared.reservations <==> row in multiset(m[id].prepared.reservations);
      }
      OneOwner(m, row, ids);
      TotalPositive(RowCounts(m, row), ids);
      assert row in Outstanding(m, scope) <==> row in multiset(Outstanding(m, scope));
    }
    CountedOnceIsDistinct(Outstanding(m, scope));
  }

  /** Some record unresolved after `n` events reserves the row. */
  ghost predicate ReservedByUnresolved(records: seq<SendRecord>, n: nat, row: Reservation) {
    exists k :: 0 <= k < |records| && Unresolved(records[k], n) && row in records[k].prepared.reservations
  }

  /** The balances a record was prepared against cover what unresolved records reserve of an asset
      beyond the authorized overlap, together with the record's own reservations. */
  ghost predicate Covers(records: seq<SendRecord>, n: nat, p: PreparedRecord, asset: AssetId) {
    HeldUnits(records, n, p.provenance.authorizedOverlap, asset) + ReservedUnits(p.reservations, [], asset)
      <= UnitsFor(p.provenance.balances, asset)
  }

  /** A row is outstanding exactly when an unresolved record reserves it. */
  lemma OutstandingMember(j: Journal, n: nat, scope: Option<Scope>, row: Reservation)
    requires JournalOk(j) && n <= |Stream(j)|
    requires scope.Some? ==> |j.records| > 0 && scope.value == j.records[0].prepared.ticket.SigningScope()
    ensures row in Outstanding(After(j, n).blocking, scope) <==> ReservedByUnresolved(j.records, n, row)
  {
    var m, ids := After(j, n).blocking, UnresolvedIds(j.records, n);
    UnresolvedAreCounting(j, n, scope);
    UnresolvedIdsMember(j.records, n);
    OutstandingRows(m, scope, ids, row);
    TotalPositive(RowCounts(m, row), ids);
    assert row in Outstanding(m, scope) <==> row in multiset(Outstanding(m, scope));
    if k :| 0 <= k < |j.records| && Unresolved(j.records[k], n) && row in j.records[k].prepared.reservations {
      assert j.records[k].Id() in ids;
      assert row in multiset(m[j.records[k].Id()].prepared.reservations);
      assert RowCounts(m, row)(j.records[k].Id()) > 0;
    }
    if id :| id in ids && RowCounts(m, row)(id) > 0 {
      var k :| 0 <= k < |j.records| && j.records[k].Id() == id && Unresolved(j.records[k], n);
      assert row in multiset(j.records[k].prepared.reservations);
    }
  }

  /** The funds check on an accepted journal, over its records: fresh balances name each asset once,
      the overlap is a set of rows that unresolved records reserve, and the balances cover the rest
      and the new record's own reservations. */
  lemma FundedExact(j: Journal, p: PreparedRecord)
    requires JournalOk(j) && Fits(j, p) && PreparedShape(p) && |j.records| > 0
    ensures Funded(p, Final(j).blocking) <==>
      && DistinctAssets(p.provenance.balances) && Distinct(p.provenance.authorizedOverlap)
      && (forall i :: 0 <= i < |p.provenance.authorizedOverlap| ==>
            ReservedByUnresolved(j.records, |Stream(j)|, p.provenance.authorizedOverlap[i]))
      && forall asset :: Covers(j.records, |Stream(j)|, p, asset)
  {
    var n, scope, overlap := |Stream(j)|, Some(p.ticket.SigningScope()), p.provenance.authorizedOverlap;
    FinalIsAfterAll(j);
    OutstandingDistinct(j, n, scope);
    RequestedDistinct(p);
    var outstanding := Outstanding(After(j, n).blocking, scope);
    forall row ensures row in outstanding <==> ReservedByUnresolved(j.records, n, row) {
      OutstandingMember(j, n, scope, row);
    }
    forall asset
      ensures Covered(p.provenance.balances, outstanding, overlap, Requested(p), asset) <==> Covers(j.records, n, p, asset)
    {
      OutstandingIsHeld(j, n, scope, overlap, asset);
      RequestedUnits(p.reservations, Requested(p), asset);
    }
  }

  // ----- what a record holds -----

  /** A record reserves exactly what it sends plus its fee ceiling: in the asset sent, and in native
      units for the fee. */
  lemma ReservesSendPlusFee(p: PreparedRecord, asset: AssetId)
    requires PreparedShape(p)
    ensures ReservedUnits(p.reservations, [], asset) ==
      (if asset == p.ticket.request.value.asset then p.ticket.request.value.units else 0)
      + (if asset.Native? then p.provenance.localFeeCeilingNative else 0)
  {
    var rows, value := p.reservations, p.ticket.request.value;
    assert rows[1..][|rows| - 1..] == [];
    if value.asset.Native? {
      assert ReservedUnits(rows[1..], [], asset) == 0;
    } else {
      CountTwo(rows, Transfer, value);
      CountTwo(rows, NativeFee, TaggedUnits(Native, p.provenance.localFeeCeilingNative));
      assert rows[1..][1..] == [] && rows[1..][0] == rows[1];
      assert ReservedUnits(rows[1..][1..], [], asset) == 0;
    }
  }

  /** All records of an accepted journal belong to one wallet, one sender and one network. */
  lemma OneSigner(j: Journal, k: nat, l: nat)
    requires JournalOk(j) && k < |j.records| && l < |j.records|
    ensures var a, b := j.records[k].prepared.ticket, j.records[l].prepared.ticket;
      a.senderWalletId == b.senderWalletId && a.senderAddress == b.senderAddress && a.networkGlobalId == b.networkGlobalId
  {
    assert j.records[k].prepared.ticket.SigningScope() == j.records[l].prepared.ticket.SigningScope();
  }

  /** A ticket's digest pins down everything a signer is bound to, and nothing else: the comment and
      its sealing key may differ. */
  lemma TicketBinding(t: SendTicket, u: SendTicket)
    requires t.Digest().Ok? && u.Digest().Ok?
    ensures t.Digest() == u.Digest() <==>
      && t.recordId == u.recordId && t.senderWalletId == u.senderWalletId && t.senderAddress == u.senderAddress
      && t.networkGlobalId == u.networkGlobalId && t.endpointIdentity == u.endpointIdentity
      && t.request.destination == u.request.destination && t.request.value == u.request.value
      && t.bounce == u.bounce && t.authGeneration == u.authGeneration && t.authNonce == u.authNonce
  {
    TicketDigestExact(t.Digested(), u.Digested());
  }
}
