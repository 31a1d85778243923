/** The send journal's replay (crates/cc-wallet-domain/src/journal.rs, risk.rs): delivery events
    of all records and risk events merge into one contiguous sequence and run through a state
    machine; `ValidateReplay` is the loop of the source and `JournalOk` what it accepts. */
module Replay {
  import opened Wrappers
  import opened Bytes
  import opened Amounts
  import opened Affordability
  import opened Sorting
  import opened Digests
  import opened Delivery

  const RISK_WARNING_VERSION := 1

  datatype RiskGrant = RiskGrant(
    oldBlockerSetDigest: Digest, oldReservationSetDigest: Digest, newTicketDigest: Digest,
    newRecordId: Bytes32, oneUseNonce: Bytes32, warningVersion: U16, overlapReservationSetDigest: Digest)
  {
    predicate Authorizes(c: RiskGrantConsumption) {
      oneUseNonce == c.oneUseNonce && newRecordId == c.newRecordId && newTicketDigest == c.newTicketDigest
    }
  }

  datatype RiskGrantConsumption = RiskGrantConsumption(
    oneUseNonce: Bytes32, newRecordId: Bytes32, newTicketDigest: Digest)

  datatype RiskAction = Granted(grant: RiskGrant) | Consumed(consumption: RiskGrantConsumption)

  datatype RiskEvent = RiskEvent(journalSeq: U64, action: RiskAction)

  datatype Journal = Journal(records: seq<SendRecord>, riskEvents: seq<RiskEvent>)

  // ----- the merged stream -----

  /** A delivery is carried with its record's immutable header, all the replay reads of a record. */
  datatype ReplayItem = DeliveryItem(prepared: PreparedRecord, event: DeliveryEvent) | RiskItem(risk: RiskEvent)
  {
    function Seq(): U64 {
      if DeliveryItem? then event.journalSeq else risk.journalSeq
    }

    predicate IsPrepared() { DeliveryItem? && event.evidence.PreparedEvidence? }

    predicate IsGrant() { RiskItem? && risk.action.Granted? }

    predicate IsConsumption() { RiskItem? && risk.action.Consumed? }

    predicate IsDeliveryOf(id: Bytes32) { DeliveryItem? && prepared.ticket.recordId == id }
  }

  predicate SeqLe(a: ReplayItem, b: ReplayItem) { a.Seq() <= b.Seq() }

  function RecordItems(r: SendRecord): (items: seq<ReplayItem>)
    ensures |items| == |r.deliveryEvents|
    ensures forall m :: 0 <= m < |items| ==> items[m] == DeliveryItem(r.prepared, r.deliveryEvents[m])
  {
    seq(|r.deliveryEvents|, m requires 0 <= m < |r.deliveryEvents| => DeliveryItem(r.prepared, r.deliveryEvents[m]))
  }

  function DeliveryItems(records: seq<SendRecord>): seq<ReplayItem> {
    if records == [] then [] else RecordItems(records[0]) + DeliveryItems(records[1..])
  }

  function RiskItems(risks: seq<RiskEvent>): (items: seq<ReplayItem>)
    ensures |items| == |risks| && forall i :: 0 <= i < |items| ==> items[i] == RiskItem(risks[i])
  {
    seq(|risks|, i requires 0 <= i < |risks| => RiskItem(risks[i]))
  }

  function Items(j: Journal): seq<ReplayItem> {
    DeliveryItems(j.records) + RiskItems(j.riskEvents)
  }

  function Stream(j: Journal): seq<ReplayItem> {
    Sort(Items(j), SeqLe)
  }

  predicate Contiguous(s: seq<ReplayItem>) {
    forall i :: 0 <= i < |s| ==> s[i].Seq() == i + 1
  }

  // ----- the replay state -----

  datatype Entry = Entry(prepared: PreparedRecord, tag: EvidenceTag)

  type RecordMap = map<Bytes32, Entry>

  datatype State = State(
    active: RecordMap, blocking: RecordMap, grants: map<Bytes32, RiskGrant>, consumed: set<Bytes32>,
    pending: Option<(RiskGrant, RiskGrantConsumption)>)

  const INITIAL := State(map[], map[], map[], {}, None)

  lemma LeastKeyExists(keys: set<Bytes32>)
    requires keys != {}
    ensures exists least :: least in keys && forall k :: k in keys ==> LexLe(least, k)
  {
    var k :| k in keys;
    LexTotal(k, k);
    if keys == {k} {
      assert forall x :: x in keys ==> LexLe(k, x);
    } else {
      LeastKeyExists(keys - {k});
      var least :| least in keys - {k} && forall x :: x in keys - {k} ==> LexLe(least, x);
      LexTotal(k, least);
      var min := if LexLe(k, least) then k else least;
      forall x | x in keys ensures LexLe(min, x) {
        if x != k {
          assert x in keys - {k};
          if min == k { LexTransitive(k, least, x); }
        }
      }
    }
  }

  /** The next key of a `BTreeMap` walk. */
  function LeastKey(keys: set<Bytes32>): (least: Bytes32)
    requires keys != {}
    ensures least in keys && forall k :: k in keys ==> LexLe(least, k)
  {
    LeastKeyExists(keys);
    assert forall a, b | a in keys && b in keys && (forall k :: k in keys ==> LexLe(a, k)) && (forall k :: k in keys ==> LexLe(b, k)) :: a == b by {
      forall a, b | a in keys && b in keys && (forall k :: k in keys ==> LexLe(a, k)) && (forall k :: k in keys ==> LexLe(b, k))
        ensures a == b
      {
        LexAntisymmetric(a, b);
      }
    }
    var least :| least in keys && forall k :: k in keys ==> LexLe(least, k);
    least
  }

  function SortedKeys(keys: set<Bytes32>): (r: seq<Bytes32>)
    ensures forall k :: k in r <==> k in keys
    ensures Distinct(r)
  {
    if keys == {} then []
    else
      var least := LeastKey(keys);
      var rest := SortedKeys(keys - {least});
      assert forall i :: 0 <= i < |rest| ==> rest[i] in rest;
      [least] + rest
  }

  predicate Selected(e: Entry, scope: Option<Scope>) {
    e.tag.IsBlocking() && (scope.Some? ==> e.prepared.ticket.SigningScope() == scope.value)
  }

  function BlockersOf(m: RecordMap, keys: seq<Bytes32>, scope: Option<Scope>): seq<BlockerRow>
    requires forall k :: k in keys ==> k in m
  {
    if keys == [] then []
    else
      (if Selected(m[keys[0]], scope) then [BlockerRow(keys[0], m[keys[0]].tag, m[keys[0]].prepared.extMsgHash)] else [])
      + BlockersOf(m, keys[1..], scope)
  }

  function ReservationsOf(m: RecordMap, keys: seq<Bytes32>, scope: Option<Scope>): seq<Reservation>
    requires forall k :: k in keys ==> k in m
  {
    if keys == [] then []
    else
      (if Selected(m[keys[0]], scope) then m[keys[0]].prepared.reservations else [])
      + ReservationsOf(m, keys[1..], scope)
  }

  /** The blocker rows of a map, in key order. */
  function Blockers(m: RecordMap, scope: Option<Scope>): seq<BlockerRow> {
    BlockersOf(m, SortedKeys(m.Keys), scope)
  }

  /** The reservations of a map's blocking records, in key order. */
  function Outstanding(m: RecordMap, scope: Option<Scope>): seq<Reservation> {
    ReservationsOf(m, SortedKeys(m.Keys), scope)
  }

  lemma {:induction false} BlockersSnoc(m: RecordMap, keys: seq<Bytes32>, k: Bytes32, scope: Option<Scope>)
    requires forall x :: x in keys ==> x in m
    requires k in m
    ensures BlockersOf(m, keys + [k], scope) == BlockersOf(m, keys, scope) + BlockersOf(m, [k], scope)
  {
    if keys != [] {
      assert (keys + [k])[1..] == keys[1..] + [k];
      BlockersSnoc(m, keys[1..], k, scope);
      var head := if Selected(m[keys[0]], scope) then [BlockerRow(keys[0], m[keys[0]].tag, m[keys[0]].prepared.extMsgHash)] else [];
      assert BlockersOf(m, keys, scope) == head + BlockersOf(m, keys[1..], scope);
      assert BlockersOf(m, keys + [k], scope) == head + BlockersOf(m, keys[1..] + [k], scope);
    } else {
      assert keys + [k] == [k];
    }
  }

  lemma {:induction false} ReservationsSnoc(m: RecordMap, keys: seq<Bytes32>, k: Bytes32, scope: Option<Scope>)
    requires forall x :: x in keys ==> x in m
    requires k in m
    ensures ReservationsOf(m, keys + [k], scope) == ReservationsOf(m, keys, scope) + ReservationsOf(m, [k], scope)
  {
    if keys != [] {
      assert (keys + [k])[1..] == keys[1..] + [k];
      ReservationsSnoc(m, keys[1..], k, scope);
    } else {
      assert keys + [k] == [k];
    }
  }

  /** The loop over the map that both grant checks share. */
  method CollectSelected(m: RecordMap, scope: Option<Scope>)
    returns (blockers: seq<BlockerRow>, reservations: seq<Reservation>)
    ensures blockers == Blockers(m, scope) && reservations == Outstanding(m, scope)
  {
    var keys := SortedKeys(m.Keys);
    blockers, reservations := [], [];
    for i := 0 to |keys|
      invariant forall k :: k in keys ==> k in m
      invariant blockers == BlockersOf(m, keys[..i], scope)
      invariant reservations == ReservationsOf(m, keys[..i], scope)
    {
      assert keys[..i + 1] == keys[..i] + [keys[i]];
      BlockersSnoc(m, keys[..i], keys[i], scope);
      ReservationsSnoc(m, keys[..i], keys[i], scope);
      var e := m[keys[i]];
      if Selected(e, scope) {
        blockers := blockers + [BlockerRow(keys[i], e.tag, e.prepared.extMsgHash)];
        reservations := reservations + e.prepared.reservations;
      }
    }
    assert keys[..|keys|] == keys;
  }

  // ----- the checks made while replaying -----

  predicate Matches(digest: Result<Digest, DigestError>, expected: Digest) {
    digest == Ok(expected)
  }

  function MatchError(digest: Result<Digest, DigestError>): JournalError {
    if digest.Err? then DigestFailed(digest.error) else GrantDigestMismatch
  }

  /** `validate_grant_old_state`: something blocks, and the grant names exactly that. */
  function GrantOldStateError(grant: RiskGrant, blocking: RecordMap): Option<JournalError> {
    var blockers := Blockers(blocking, None);
    var reservations := Outstanding(blocking, None);
    if blockers == [] then Some(GrantDigestMismatch)
    else if !Matches(BlockerSetDigest(blockers), grant.oldBlockerSetDigest) then Some(MatchError(BlockerSetDigest(blockers)))
    else if !Matches(ReservationSetDigest(reservations), grant.oldReservationSetDigest) then
      Some(MatchError(ReservationSetDigest(reservations)))
    else None
  }

  /** `validate_grant_state`: the same at the time of use, in the new record's scope, together
      with the overlap and the ticket. */
  function GrantStateError(grant: RiskGrant, p: PreparedRecord, blocking: RecordMap): Option<JournalError> {
    var blockers := Blockers(blocking, Some(p.ticket.SigningScope()));
    var reservations := Outstanding(blocking, Some(p.ticket.SigningScope()));
    var overlap := p.provenance.authorizedOverlap;
    GrantChecks(grant, p.ticket.recordId, p.ticket.Digest(), blockers == [],
                exists i :: 0 <= i < |overlap| && overlap[i] !in reservations,
                BlockerSetDigest(blockers), ReservationSetDigest(reservations), OverlapSetDigest(overlap))
  }

  /** The comparisons, in the order in which they are made. */
  function GrantChecks(grant: RiskGrant, recordId: Bytes32, ticket: Result<Digest, DigestError>, idle: bool, outside: bool,
                       blockers: Result<Digest, DigestError>, reservations: Result<Digest, DigestError>,
                       overlap: Result<Digest, DigestError>): Option<JournalError>
  {
    if idle then Some(GrantDigestMismatch)
    else if outside then Some(InvalidReservation)
    else if ticket.Err? then Some(DigestFailed(ticket.error))
    else if !Matches(blockers, grant.oldBlockerSetDigest) then Some(MatchError(blockers))
    else if !Matches(reservations, grant.oldReservationSetDigest) then Some(MatchError(reservations))
    else if !Matches(overlap, grant.overlapReservationSetDigest) then Some(MatchError(overlap))
    else if ticket.value != grant.newTicketDigest || recordId != grant.newRecordId then Some(GrantDigestMismatch)
    else None
  }

  /** Someone else's delivery in the same scope is still unresolved. */
  predicate Blocked(blocking: RecordMap, scope: Scope) {
    exists id :: id in blocking && Selected(blocking[id], Some(scope))
  }

  /** The signing permission of a Prepared: ordinary, or by the consumption just before it. */
  function SigningError(p: PreparedRecord, st: State): Option<JournalError> {
    match st.pending
    case Some((grant, consumption)) =>
      if p.ticket.recordId != consumption.newRecordId then Some(ConsumptionMismatch)
      else if p.ticket.Digest().Err? then Some(DigestFailed(p.ticket.Digest().error))
      else if p.ticket.Digest().value != consumption.newTicketDigest then Some(ConsumptionMismatch)
      else GrantStateError(grant, p, st.blocking)
    case None =>
      if p.provenance.authorizedOverlap != [] then Some(OrphanConsumption)
      else if Blocked(st.blocking, p.ticket.SigningScope()) then Some(OrdinarySigningBlocked)
      else None
  }

  /** The affordability check repeated at every Prepared. */
  ghost predicate Funded(p: PreparedRecord, blocking: RecordMap) {
    var outstanding := Outstanding(blocking, Some(p.ticket.SigningScope()));
    && Consistent(p.provenance.balances, outstanding, p.provenance.authorizedOverlap, Requested(p))
    && Affordable(p.provenance.balances, outstanding, p.provenance.authorizedOverlap, Requested(p))
  }

  ghost function StepPrepared(st: State, p: PreparedRecord): Result<State, JournalError> {
    var id := p.ticket.recordId;
    var denied := SigningError(p, st);
    if id in st.active then Err(InvalidDelivery)
    else if denied.Some? then Err(denied.value)
    else if !Funded(p, st.blocking) then Err(InvalidReservation)
    else
      Ok(st.(active := st.active[id := Entry(p, Prepared)], blocking := st.blocking[id := Entry(p, Prepared)],
             pending := None))
  }

  function StepDelivery(st: State, p: PreparedRecord, tag: EvidenceTag): Result<State, JournalError> {
    var id := p.ticket.recordId;
    if id !in st.active then Err(InvalidDelivery)
    else
      Ok(st.(active := st.active[id := Entry(st.active[id].prepared, tag)],
             blocking := if tag.IsBlocking() then st.blocking[id := Entry(p, tag)] else st.blocking - {id}))
  }

  function StepGrant(st: State, grant: RiskGrant): Result<State, JournalError> {
    var stale := GrantOldStateError(grant, st.blocking);
    if grant.warningVersion != RISK_WARNING_VERSION then Err(UnsupportedWarningVersion)
    else if stale.Some? then Err(stale.value)
    else if grant.oneUseNonce in st.grants then Err(DuplicateConsumption)
    else Ok(st.(grants := st.grants[grant.oneUseNonce := grant]))
  }

  function StepConsumption(st: State, c: RiskGrantConsumption): Result<State, JournalError> {
    if c.oneUseNonce !in st.grants then Err(OrphanConsumption)
    else if !st.grants[c.oneUseNonce].Authorizes(c) then Err(ConsumptionMismatch)
    else if c.oneUseNonce in st.consumed then Err(DuplicateConsumption)
    else Ok(st.(consumed := st.consumed + {c.oneUseNonce}, pending := Some((st.grants[c.oneUseNonce], c))))
  }

  /** One item of the stream. */
  ghost function Step(st: State, item: ReplayItem): Result<State, JournalError> {
    if st.pending.Some? && !item.IsPrepared() then Err(ConsumptionNotAdjacent)
    else
      match item
      case RiskItem(risk) =>
        (match risk.action
         case Granted(grant) => StepGrant(st, grant)
         case Consumed(consumption) => StepConsumption(st, consumption))
      case DeliveryItem(p, event) =>
        if event.evidence.PreparedEvidence? then StepPrepared(st, p) else StepDelivery(st, p, event.evidence.Tag())
  }

  /** The state after a whole stream, or the first error. */
  ghost function Fold(items: seq<ReplayItem>): Result<State, JournalError> {
    if items == [] then Ok(INITIAL)
    else
      var before := Fold(items[..|items| - 1]);
      if before.Err? then before else Step(before.value, items[|items| - 1])
  }

  /** One wallet, one sender, one network. */
  predicate SameScope(records: seq<SendRecord>) {
    forall k :: 0 <= k < |records| ==>
      records[k].prepared.ticket.SigningScope() == records[0].prepared.ticket.SigningScope()
  }

  predicate DistinctIds(records: seq<SendRecord>) {
    forall k, l :: 0 <= k < l < |records| ==> records[k].Id() != records[l].Id()
  }

  predicate AllStatic(records: seq<SendRecord>) {
    forall k :: 0 <= k < |records| ==> StaticOk(records[k])
  }

  predicate RecordsOk(records: seq<SendRecord>) {
    AllStatic(records) && SameScope(records) && DistinctIds(records)
  }

  /** What `validate_replay` accepts. */
  ghost predicate JournalOk(j: Journal) {
    && RecordsOk(j.records)
    && Contiguous(Stream(j))
    && Fold(Stream(j)).Ok? && Fold(Stream(j)).value.pending.None?
  }

  // ----- the loops of the source -----

  method StepMethod(st: State, item: ReplayItem) returns (r: Result<State, JournalError>)
    ensures r == Step(st, item)
  {
    if st.pending.Some? && !item.IsPrepared() {
      return Err(ConsumptionNotAdjacent);
    }
    match item {
      case RiskItem(risk) =>
        match risk.action {
          case Granted(grant) => return StepGrant(st, grant);
          case Consumed(consumption) => return StepConsumption(st, consumption);
        }
      case DeliveryItem(p, event) =>
        if !event.evidence.PreparedEvidence? {
          return StepDelivery(st, p, event.evidence.Tag());
        }
        var id := p.ticket.recordId;
        if id in st.active {
          return Err(InvalidDelivery);
        }
        var denied := SigningError(p, st);
        if denied.Some? {
          return Err(denied.value);
        }
        var _, outstanding := CollectSelected(st.blocking, Some(p.ticket.SigningScope()));
        var report := EvaluateAffordability(p.provenance.balances, outstanding, p.provenance.authorizedOverlap, Requested(p));
        if report.Err? || !IsAffordable(report.value) {
          return Err(InvalidReservation);
        }
        return Ok(st.(active := st.active[id := Entry(p, Prepared)],
                      blocking := st.blocking[id := Entry(p, Prepared)], pending := None));
    }
  }

  lemma RecordsSnoc(records: seq<SendRecord>, k: nat)
    requires k < |records|
    ensures RecordsOk(records[..k + 1]) <==>
      && RecordsOk(records[..k]) && StaticOk(records[k])
      && records[k].prepared.ticket.SigningScope() == records[0].prepared.ticket.SigningScope()
      && !(exists l :: 0 <= l < k && records[l].Id() == records[k].Id())
    ensures !RecordsOk(records[..k + 1]) ==> !RecordsOk(records)
  {
    var shorter, longer := records[..k], records[..k + 1];
    assert longer == shorter + [records[k]];
    assert longer[k] == records[k];
    assert forall l :: 0 <= l < k ==> longer[l] == shorter[l] == records[l];
  }

  method ValidateRecords(records: seq<SendRecord>) returns (e: Option<JournalError>)
    ensures e.None? <==> RecordsOk(records)
  {
    var ids: set<Bytes32> := {};
    for k := 0 to |records|
      invariant forall l :: 0 <= l < k ==> records[l].Id() in ids
      invariant forall id :: id in ids ==> exists l :: 0 <= l < k && records[l].Id() == id
      invariant RecordsOk(records[..k])
    {
      RecordsSnoc(records, k);
      var ok := ValidateStatic(records[k]);
      if !ok { return Some(InvalidDelivery); }
      if records[k].prepared.ticket.SigningScope() != records[0].prepared.ticket.SigningScope() {
        return Some(InvalidDelivery);
      }
      if records[k].Id() in ids { return Some(DuplicateRecord); }
      ids := ids + {records[k].Id()};
    }
    assert records[..|records|] == records;
    return None;
  }

  method CheckSequence(s: seq<ReplayItem>) returns (e: Option<JournalError>)
    ensures e.None? <==> Contiguous(s)
  {
    for i := 0 to |s|
      invariant Contiguous(s[..i])
    {
      if i + 1 > U64_MAX {
        assert s[i].Seq() != i + 1;
        return Some(SequenceOverflow);
      }
      if s[i].Seq() == 0 { return Some(SequenceZero); }
      if s[i].Seq() != i + 1 { return Some(SequenceGap); }
    }
    assert s[..|s|] == s;
    return None;
  }

  /** `validate_replay`. */
  method ValidateReplay(j: Journal) returns (e: Option<JournalError>)
    ensures e.None? <==> JournalOk(j)
    ensures RecordsOk(j.records) && Contiguous(Stream(j)) && Fold(Stream(j)).Err? ==> e == Some(Fold(Stream(j)).error)
  {
    e := ValidateRecords(j.records);
    if e.Some? { return; }
    var s := Stream(j);
    e := CheckSequence(s);
    if e.Some? { return; }
    var st := INITIAL;
    for i := 0 to |s|
      invariant Fold(s[..i]) == Ok(st)
    {
      assert s[..i + 1][..i] == s[..i];
      var r := StepMethod(st, s[i]);
      if r.Err? {
        FoldErrorSticks(s, i + 1);
        assert s[..|s|] == s;
        return Some(r.error);
      }
      st := r.value;
    }
    assert s[..|s|] == s;
    return if st.pending.Some? then Some(ConsumptionNotAdjacent) else None;
  }

  lemma {:induction false} FoldErrorSticks(s: seq<ReplayItem>, n: nat)
    requires n <= |s| && Fold(s[..n]).Err?
    ensures Fold(s) == Fold(s[..n])
    decreases |s| - n
  {
    if n == |s| {
      assert s[..n] == s;
    } else {
      assert s[..n + 1][..n] == s[..n];
      FoldErrorSticks(s, n + 1);
    }
  }
}
