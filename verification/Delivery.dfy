/** One send record (crates/cc-wallet-domain/src/journal.rs): its immutable header, its
    delivery evidence, the record-local checks, and the grammar those checks accept. */
module Delivery {
  import opened Wrappers
  import opened Bytes
  import opened Amounts
  import opened Affordability
  import opened Sorting
  import opened Digests

  datatype JournalError =
    | InvalidProvenance | InvalidReservation | InvalidDelivery | DuplicateRecord
    | SequenceZero | SequenceGap | SequenceOverflow
    | OrphanConsumption | UnsupportedWarningVersion | ConsumptionMismatch | ConsumptionNotAdjacent
    | DuplicateConsumption | OrdinarySigningBlocked | GrantDigestMismatch | DigestFailed(error: DigestError)

  // ----- identities: UTF-8 text that is nonempty, untrimmed-equal and free of ASCII control bytes -----

  /** The length of the UTF-8 encoded `White_Space` character at `i`, ASCII controls aside; 0 if there is none. */
  function SpaceAt(b: Bytes, i: nat): nat {
    if i >= |b| then 0
    else if b[i] == 0x20 then 1
    else if i + 1 < |b| && b[i] == 0xC2 && (b[i + 1] == 0x85 || b[i + 1] == 0xA0) then 2
    else if i + 2 < |b| && IsWideSpace(b[i], b[i + 1], b[i + 2]) then 3
    else 0
  }

  predicate IsWideSpace(x: byte, y: byte, z: byte) {
    || (x == 0xE1 && y == 0x9A && z == 0x80)
    || (x == 0xE2 && y == 0x80 && (0x80 <= z <= 0x8A || z == 0xA8 || z == 0xA9 || z == 0xAF))
    || (x == 0xE2 && y == 0x81 && z == 0x9F)
    || (x == 0xE3 && y == 0x80 && z == 0x80)
  }

  /** `trim` would leave the text alone. */
  predicate IsTrimmed(b: Bytes) {
    && SpaceAt(b, 0) == 0
    && (|b| >= 1 ==> SpaceAt(b, |b| - 1) != 1)
    && (|b| >= 2 ==> SpaceAt(b, |b| - 2) != 2)
    && (|b| >= 3 ==> SpaceAt(b, |b| - 3) != 3)
  }

  predicate NoControls(b: Bytes) {
    b == [] || (b[0] >= 0x20 && b[0] != 0x7F && NoControls(b[1..]))
  }

  predicate ValidIdentity(b: Bytes) {
    b != [] && IsTrimmed(b) && NoControls(b)
  }

  // ----- the immutable part of a record -----

  /** `SendRequest`: the comment and the sealing key are carried but never digested. */
  datatype SendRequest = SendRequest(
    destination: CanonicalAddress, value: AssetAmount, comment: Bytes, encryptTo: Option<Bytes32>)

  datatype Scope = Scope(walletId: Bytes, address: CanonicalAddress, globalId: I32)

  datatype SendTicket = SendTicket(
    recordId: Bytes32, senderWalletId: Bytes, senderAddress: CanonicalAddress, networkGlobalId: I32,
    endpointIdentity: Bytes, request: SendRequest, bounce: bool, authGeneration: U64, authNonce: U64)
  {
    function Digested(): TicketDigestInput {
      TicketDigestInput(recordId, senderWalletId, senderAddress, networkGlobalId, endpointIdentity,
                        request.destination, request.value, bounce, authGeneration, authNonce)
    }

    function Digest(): Result<Digest, DigestError> {
      TicketDigest(Digested())
    }

    function SigningScope(): Scope {
      Scope(senderWalletId, senderAddress, networkGlobalId)
    }
  }

  /** The parts of `PrepareProvenance` that any check reads. */
  datatype PrepareProvenance = PrepareProvenance(
    sourceEndpoint: Bytes, routeId: Bytes, balances: seq<AssetAmount>, signatureGlobalId: I32,
    estimatedFeeNative: U128, localFeeCeilingNative: U128, authorizedOverlap: seq<Reservation>)

  /** The header of a record; `SendRecord` repeats these fields beside its events. */
  datatype PreparedRecord = PreparedRecord(
    ticket: SendTicket, provenance: PrepareProvenance, extMsgHash: Bytes32, expireAt: U32,
    reservations: seq<Reservation>)

  const LOCAL_SEND_FEE_CEILING_NANOS := 1_000_000_000
  const LOCAL_SEND_FEE_HEADROOM_NANOS := 400_000

  /** The fee rule of `PrepareProvenance::new`. */
  predicate FeeRule(estimated: U128, ceiling: U128) {
    && estimated <= LOCAL_SEND_FEE_CEILING_NANOS && ceiling <= LOCAL_SEND_FEE_CEILING_NANOS
    && (ceiling == LOCAL_SEND_FEE_CEILING_NANOS
        || (estimated + LOCAL_SEND_FEE_HEADROOM_NANOS <= U128_MAX
            && estimated <= ceiling <= estimated + LOCAL_SEND_FEE_HEADROOM_NANOS))
  }

  /** `validate_reservations`: the rows must be the ticket's own, nonzero, and exactly the
      transfer plus the fee, in one native row or in a transfer row and a native-fee row. */
  predicate ReservationsFit(ticket: SendTicket, feeUnits: U128, rows: seq<Reservation>) {
    && (forall i :: 0 <= i < |rows| ==> rows[i].recordId == ticket.recordId && rows[i].amount.units > 0)
    && feeUnits <= NATIVE_MAX_UNITS
    && var fee := TaggedUnits(Native, feeUnits);
       var value := ticket.request.value;
       if value.asset.Native? then
         && CheckedAdd(value, fee).Ok?
         && |rows| == 1 && rows[0].kind.Transfer? && rows[0].amount == CheckedAdd(value, fee).value
       else
         && |rows| == 2
         && CountRows(rows, Transfer, value) == 1
         && CountRows(rows, NativeFee, fee) == 1
  }

  function CountRows(rows: seq<Reservation>, kind: ReservationKind, amount: AssetAmount): nat {
    if rows == [] then 0
    else (if rows[0].kind == kind && rows[0].amount == amount then 1 else 0) + CountRows(rows[1..], kind, amount)
  }

  /** `check_prepared_shape`. */
  predicate PreparedShape(p: PreparedRecord) {
    && p.provenance.sourceEndpoint == p.ticket.endpointIdentity
    && p.provenance.signatureGlobalId == p.ticket.networkGlobalId
    && ReservationsFit(p.ticket, p.provenance.localFeeCeilingNative, p.reservations)
  }

  /** The amounts a record asks for. */
  function Requested(p: PreparedRecord): (r: seq<AssetAmount>)
    ensures |r| == |p.reservations|
    ensures forall i :: 0 <= i < |r| ==> r[i] == p.reservations[i].amount
  {
    seq(|p.reservations|, i requires 0 <= i < |p.reservations| => p.reservations[i].amount)
  }

  // ----- delivery evidence -----

  datatype NodeResponseKind = Acknowledged | Rejected | TransportError | Malformed

  datatype TerminalOutcome = Success | FailedOnChain

  datatype EndpointTransaction = EndpointTransaction(
    sourceEndpoint: Bytes, requestId: Bytes, senderAddress: CanonicalAddress, extMsgHash: Bytes32, success: bool)

  datatype Evidence =
    | PreparedEvidence
    | Attempt(attemptNo: U32, routeId: Bytes)
    | Broadcast(attemptNo: U32, routeId: Bytes)
    | NodeResponse(attemptNo: U32, routeId: Bytes, requestId: Bytes, response: NodeResponseKind)
    | ReportedSuccess(tx: EndpointTransaction)
    | ReportedFailure(tx: EndpointTransaction)
    | Verified(outcome: TerminalOutcome, proofRef: Bytes)
    | NotSent(routeId: Bytes, detail: Bytes)
  {
    function Tag(): EvidenceTag {
      match this
      case PreparedEvidence => Prepared
      case Attempt(_, _) => AttemptStarted
      case Broadcast(_, _) => MayHaveBroadcast
      case NodeResponse(_, _, _, _) => NodeResponseObserved
      case ReportedSuccess(_) => EndpointReportedSuccess
      case ReportedFailure(_) => EndpointReportedFailedOnChain
      case Verified(outcome, _) =>
        if outcome.Success? then VerifiedTerminalSuccess else VerifiedTerminalFailedOnChain
      case NotSent(_, _) => NotBroadcast
    }

    predicate IsReport() { ReportedSuccess? || ReportedFailure? }

    predicate IsTerminal() { Verified? || NotSent? }

    /** `DeliveryEvidence::validate`. */
    predicate WellFormed() {
      match this
      case PreparedEvidence => true
      case Attempt(n, route) => n > 0 && ValidIdentity(route)
      case Broadcast(n, route) => n > 0 && ValidIdentity(route)
      case NodeResponse(n, route, request, _) => n > 0 && ValidIdentity(route) && ValidIdentity(request)
      case ReportedSuccess(tx) => tx.success && ValidIdentity(tx.sourceEndpoint) && ValidIdentity(tx.requestId)
      case ReportedFailure(tx) => !tx.success && ValidIdentity(tx.sourceEndpoint) && ValidIdentity(tx.requestId)
      case Verified(_, proof) => ValidIdentity(proof)
      case NotSent(route, detail) => ValidIdentity(route) && ValidIdentity(detail)
    }

    /** The evidence belongs to this record: same frozen route, or same endpoint, sender and message. */
    predicate BoundTo(p: PreparedRecord) {
      match this
      case Attempt(_, route) => route == p.provenance.routeId
      case Broadcast(_, route) => route == p.provenance.routeId
      case NodeResponse(_, route, _, _) => route == p.provenance.routeId
      case NotSent(route, _) => route == p.provenance.routeId
      case ReportedSuccess(tx) => ReportBoundTo(tx, p)
      case ReportedFailure(tx) => ReportBoundTo(tx, p)
      case _ => true
    }
  }

  predicate ReportBoundTo(tx: EndpointTransaction, p: PreparedRecord) {
    tx.sourceEndpoint == p.ticket.endpointIdentity && tx.senderAddress == p.ticket.senderAddress
    && tx.extMsgHash == p.extMsgHash
  }

  /** `valid_delivery_transition`. */
  predicate ValidTransition(previous: Evidence, next: Evidence) {
    match (previous, next)
    case (PreparedEvidence, Attempt(n, _)) => n == 1
    case (PreparedEvidence, NotSent(_, _)) => true
    case (Attempt(m, _), Attempt(n, _)) => m + 1 <= U32_MAX && m + 1 == n
    case (Attempt(m, _), Broadcast(n, _)) => m == n
    case (Attempt(m, _), NodeResponse(n, _, _, _)) => m == n
    case (Attempt(_, _), NotSent(_, _)) => true
    case (_, ReportedSuccess(_)) => previous.Attempt? || previous.Broadcast? || previous.NodeResponse?
    case (_, ReportedFailure(_)) => previous.Attempt? || previous.Broadcast? || previous.NodeResponse?
    case (_, Verified(_, _)) => !previous.PreparedEvidence? && !previous.IsTerminal()
    case _ => false
  }

  datatype DeliveryEvent = DeliveryEvent(journalSeq: U64, evidence: Evidence)

  datatype SendRecord = SendRecord(prepared: PreparedRecord, deliveryEvents: seq<DeliveryEvent>)
  {
    function Id(): Bytes32 { prepared.ticket.recordId }

    function LatestTag(): EvidenceTag
      requires deliveryEvents != []
    {
      deliveryEvents[|deliveryEvents| - 1].evidence.Tag()
    }

    predicate IsBlocking()
      requires deliveryEvents != []
    {
      LatestTag().IsBlocking()
    }
  }

  /** Consecutive pieces of evidence are linked by valid transitions. */
  predicate PairwiseValid(evs: seq<Evidence>) {
    forall i :: 0 < i < |evs| ==> ValidTransition(evs[i - 1], evs[i])
  }

  function EvidenceOf(events: seq<DeliveryEvent>): (evs: seq<Evidence>)
    ensures |evs| == |events| && forall i :: 0 <= i < |evs| ==> evs[i] == events[i].evidence
  {
    seq(|events|, i requires 0 <= i < |events| => events[i].evidence)
  }

  /** What `validate_static` accepts. */
  predicate StaticOk(r: SendRecord) {
    var events := r.deliveryEvents;
    && events != [] && events[0].evidence.PreparedEvidence?
    && PreparedShape(r.prepared)
    && PairwiseValid(EvidenceOf(events))
    && (forall i :: 0 <= i < |events| ==> events[i].evidence.WellFormed() && events[i].evidence.BoundTo(r.prepared))
    && events[0].journalSeq > 0
    && (forall i :: 0 < i < |events| ==> events[i - 1].journalSeq < events[i].journalSeq)
  }

  /** What one turn of the loop in `validate_static` checks of event `i`. */
  predicate EventFits(r: SendRecord, i: nat)
    requires i < |r.deliveryEvents|
  {
    var events := r.deliveryEvents;
    && events[i].evidence.WellFormed()
    && (i > 0 ==> ValidTransition(events[i - 1].evidence, events[i].evidence))
    && events[i].evidence.BoundTo(r.prepared)
    && events[i].journalSeq > (if i == 0 then 0 else events[i - 1].journalSeq)
  }

  lemma StaticByEvents(r: SendRecord)
    ensures StaticOk(r) <==>
      && r.deliveryEvents != [] && r.deliveryEvents[0].evidence.PreparedEvidence? && PreparedShape(r.prepared)
      && forall i :: 0 <= i < |r.deliveryEvents| ==> EventFits(r, i)
  {
    var events := r.deliveryEvents;
    if events != [] && forall i :: 0 <= i < |events| ==> EventFits(r, i) {
      assert EventFits(r, 0);
      forall i | 0 <= i < |events|
        ensures events[i].evidence.WellFormed() && events[i].evidence.BoundTo(r.prepared)
      {
        assert EventFits(r, i);
      }
      forall i | 0 < i < |events|
        ensures ValidTransition(EvidenceOf(events)[i - 1], EvidenceOf(events)[i])
        ensures events[i - 1].journalSeq < events[i].journalSeq
      {
        assert EventFits(r, i);
      }
    }
    if StaticOk(r) {
      forall i | 0 <= i < |events| ensures EventFits(r, i) {
        if i > 0 { assert ValidTransition(EvidenceOf(events)[i - 1], EvidenceOf(events)[i]); }
      }
    }
  }

  lemma TransitionsNeverRestart(previous: Evidence, next: Evidence)
    requires ValidTransition(previous, next)
    ensures !previous.IsTerminal() && !next.PreparedEvidence?
  {}

  /** A Prepared event after the first. */
  method SecondPrepared(events: seq<DeliveryEvent>) returns (found: bool)
    ensures found <==> exists i :: 1 <= i < |events| && events[i].evidence.PreparedEvidence?
  {
    for i := 0 to |events|
      invariant forall k :: 1 <= k < i ==> !events[k].evidence.PreparedEvidence?
    {
      if i >= 1 && events[i].evidence.PreparedEvidence? { return true; }
    }
    return false;
  }

  /** One turn of the loop: the evidence itself, its transition, its binding, its place. */
  method CheckEvent(r: SendRecord, i: nat, prior: U64, terminal: bool) returns (ok: bool)
    requires i < |r.deliveryEvents|
    requires prior == (if i == 0 then 0 else r.deliveryEvents[i - 1].journalSeq)
    requires terminal <==> i > 0 && r.deliveryEvents[i - 1].evidence.IsTerminal()
    ensures ok <==> EventFits(r, i)
  {
    var event := r.deliveryEvents[i];
    var follows := i == 0 || ValidTransition(r.deliveryEvents[i - 1].evidence, event.evidence);
    if terminal && follows {
      TransitionsNeverRestart(r.deliveryEvents[i - 1].evidence, event.evidence);
    }
    ok := event.evidence.WellFormed() && follows && event.evidence.BoundTo(r.prepared)
      && event.journalSeq > prior && !terminal;
  }

  method CheckEvents(r: SendRecord) returns (ok: bool)
    ensures ok <==> forall i :: 0 <= i < |r.deliveryEvents| ==> EventFits(r, i)
  {
    var prior: U64, terminal := 0, false;
    for i := 0 to |r.deliveryEvents|
      invariant prior == (if i == 0 then 0 else r.deliveryEvents[i - 1].journalSeq)
      invariant terminal <==> i > 0 && r.deliveryEvents[i - 1].evidence.IsTerminal()
      invariant forall k :: 0 <= k < i ==> EventFits(r, k)
    {
      ok := CheckEvent(r, i, prior, terminal);
      if !ok { return; }
      terminal := r.deliveryEvents[i].evidence.IsTerminal();
      prior := r.deliveryEvents[i].journalSeq;
    }
    return true;
  }

  /** `validate_static`. The source also refuses a second Prepared and anything after a terminal;
      both checks are implied by the transitions, which is why they do not appear in `StaticOk`. */
  method ValidateStatic(r: SendRecord) returns (ok: bool)
    ensures ok <==> StaticOk(r)
  {
    StaticByEvents(r);
    if r.deliveryEvents == [] || !r.deliveryEvents[0].evidence.PreparedEvidence? { return false; }
    var second := SecondPrepared(r.deliveryEvents);
    if second {
      ghost var i :| 1 <= i < |r.deliveryEvents| && r.deliveryEvents[i].evidence.PreparedEvidence?;
      assert !EventFits(r, i);
      return false;
    }
    if !PreparedShape(r.prepared) { return false; }
    ok := CheckEvents(r);
  }

  // ----- the grammar of deliveries -----

  /** `evs` is the attempts numbered `first`, `first + 1`, ... */
  predicate Attempts(evs: seq<Evidence>, first: nat) {
    forall i :: 0 <= i < |evs| ==> evs[i].Attempt? && evs[i].attemptNo == first + i
  }

  /** At most one broadcast or response for attempt `k`, then at most one report, then at most one verdict. */
  predicate Aftermath(evs: seq<Evidence>, k: nat) {
    || evs == []
    || ((evs[0].Broadcast? || evs[0].NodeResponse?) && evs[0].attemptNo == k && ReportTail(evs[1..]))
    || ReportTail(evs)
  }

  predicate ReportTail(evs: seq<Evidence>) {
    evs == [] || (evs[0].IsReport() && VerdictTail(evs[1..])) || VerdictTail(evs)
  }

  predicate VerdictTail(evs: seq<Evidence>) {
    evs == [] || (|evs| == 1 && evs[0].Verified?)
  }

  /** Prepared; then attempts 1..k; then a NotBroadcast, or, once something was attempted, an aftermath. */
  ghost predicate Grammar(evs: seq<Evidence>) {
    && evs != [] && evs[0].PreparedEvidence?
    && exists k :: 0 <= k < |evs| && InGrammar(evs, k)
  }

  predicate InGrammar(evs: seq<Evidence>, k: nat)
    requires k < |evs|
  {
    && Attempts(evs[1..k + 1], 1)
    && (|| (|evs| == k + 2 && evs[k + 1].NotSent?)
        || (k == 0 && |evs| == 1)
        || (k > 0 && Aftermath(evs[k + 1..], k)))
  }

  lemma {:induction false} ReportTailPairwise(evs: seq<Evidence>, previous: Evidence)
    requires previous.Attempt? || previous.Broadcast? || previous.NodeResponse?
    requires previous.Attempt? ==> evs == [] || evs[0].IsReport() || evs[0].IsTerminal()
    requires evs == [] || !evs[0].NotSent?
    ensures PairwiseValid([previous] + evs) <==> ReportTail(evs)
  {
    var all := [previous] + evs;
    assert |evs| > 2 && PairwiseValid(all) ==> ValidTransition(all[2], all[3]);
    if ReportTail(evs) {
      forall i | 0 < i < |all| ensures ValidTransition(all[i - 1], all[i]) {
        assert all[i] == evs[i - 1];
        if i == 2 { assert evs[0].IsReport() && evs[1..][0] == evs[1]; }
      }
    }
    if PairwiseValid(all) && evs != [] {
      assert ValidTransition(all[0], all[1]);
      if |evs| > 1 {
        assert ValidTransition(all[1], all[2]);
      }
    }
  }

  lemma AftermathPairwise(evs: seq<Evidence>, attempt: Evidence)
    requires attempt.Attempt?
    requires evs == [] || (!evs[0].NotSent? && !evs[0].Attempt?)
    ensures PairwiseValid([attempt] + evs) <==> Aftermath(evs, attempt.attemptNo)
  {
    var all := [attempt] + evs;
    if evs != [] {
      if evs[0].Broadcast? || evs[0].NodeResponse? {
        assert all[1..] == [evs[0]] + evs[1..];
        assert PairwiseValid(all) <==> ValidTransition(all[0], all[1]) && PairwiseValid(all[1..]) by {
          PairwiseUnfold(all);
        }
        if |evs| > 1 && evs[1].NotSent? {
          assert !ValidTransition(all[1], all[2]);
          assert !PairwiseValid(all);
          assert evs[1..][0] == evs[1];
        } else {
          ReportTailPairwise(evs[1..], evs[0]);
        }
      } else if evs[0].IsReport() || evs[0].IsTerminal() {
        ReportTailPairwise(evs, attempt);
      } else {
        assert !ValidTransition(all[0], all[1]);
      }
    }
  }

  lemma PairwiseUnfold(evs: seq<Evidence>)
    requires |evs| >= 2
    ensures PairwiseValid(evs) <==> ValidTransition(evs[0], evs[1]) && PairwiseValid(evs[1..])
  {
    var rest := evs[1..];
    if ValidTransition(evs[0], evs[1]) && PairwiseValid(rest) {
      forall i | 0 < i < |evs| ensures ValidTransition(evs[i - 1], evs[i]) {
        if i > 1 { assert ValidTransition(rest[i - 2], rest[i - 1]); }
      }
    }
    if PairwiseValid(evs) {
      forall i | 0 < i < |rest| ensures ValidTransition(rest[i - 1], rest[i]) {
        assert ValidTransition(evs[i], evs[i + 1]);
      }
    }
  }

  /** The number of attempts directly after the first element. */
  function LeadingAttempts(evs: seq<Evidence>): (k: nat)
    ensures k <= |evs|
    ensures forall i :: 0 <= i < k ==> evs[i].Attempt?
    ensures k < |evs| ==> !evs[k].Attempt?
  {
    if evs == [] || !evs[0].Attempt? then 0
    else 1 + LeadingAttempts(evs[1..])
  }

  lemma {:induction false} AttemptsCount(evs: seq<Evidence>, k: nat)
    requires k < |evs| && evs[0].PreparedEvidence?
    requires forall i :: 0 < i <= k ==> evs[i].Attempt? && ValidTransition(evs[i - 1], evs[i])
    ensures Attempts(evs[1..k + 1], 1)
  {
    if k > 0 {
      AttemptsCount(evs, k - 1);
      assert evs[1..k + 1] == evs[1..k] + [evs[k]];
      if k > 1 { assert evs[1..k][k - 2] == evs[k - 1]; }
    }
  }

  lemma PairwiseCut(evs: seq<Evidence>, k: nat)
    requires k < |evs|
    ensures PairwiseValid(evs) <==> PairwiseValid(evs[..k + 1]) && PairwiseValid(evs[k..])
  {
    if PairwiseValid(evs[..k + 1]) && PairwiseValid(evs[k..]) {
      forall i | 0 < i < |evs| ensures ValidTransition(evs[i - 1], evs[i]) {
        if i <= k {
          assert evs[..k + 1][i - 1] == evs[i - 1] && evs[..k + 1][i] == evs[i];
        } else {
          assert evs[k..][i - k - 1] == evs[i - 1] && evs[k..][i - k] == evs[i];
        }
      }
    }
    if PairwiseValid(evs) {
      forall i | 0 < i < |evs[k..]| ensures ValidTransition(evs[k..][i - 1], evs[k..][i]) {
        assert ValidTransition(evs[k + i - 1], evs[k + i]);
      }
    }
  }

  lemma AttemptsPairwise(evs: seq<Evidence>, k: nat)
    requires k < |evs| && evs[0].PreparedEvidence? && Attempts(evs[1..k + 1], 1)
    ensures PairwiseValid(evs[..k + 1])
  {
    var head := evs[..k + 1];
    forall i | 0 < i < |head| ensures ValidTransition(head[i - 1], head[i]) {
      assert evs[1..k + 1][i - 1] == evs[i];
      if i > 1 { assert evs[1..k + 1][i - 2] == evs[i - 1]; }
    }
  }

  /** What may follow the last of k attempts. */
  lemma TailPairwise(evs: seq<Evidence>, k: nat)
    requires k < |evs| && evs[0].PreparedEvidence? && Attempts(evs[1..k + 1], 1)
    requires k + 1 < |evs| ==> !evs[k + 1].Attempt?
    ensures PairwiseValid(evs[k..]) <==> InGrammar(evs, k)
  {
    var tail := evs[k + 1..];
    assert evs[k..] == [evs[k]] + tail;
    if k > 0 { assert evs[1..k + 1][k - 1] == evs[k]; }
    if tail != [] && evs[k + 1].NotSent? {
      assert ValidTransition(evs[k..][0], evs[k..][1]);
      if |tail| > 1 { assert !ValidTransition(evs[k..][1], evs[k..][2]); }
    } else if k > 0 {
      AftermathPairwise(tail, evs[k]);
    } else if tail != [] {
      assert !ValidTransition(evs[k..][0], evs[k..][1]);
    }
  }

  /** The pairwise check accepts exactly the grammar. */
  lemma TransitionsAreTheGrammar(evs: seq<Evidence>)
    ensures evs != [] && evs[0].PreparedEvidence? && PairwiseValid(evs) <==> Grammar(evs)
  {
    if evs != [] && evs[0].PreparedEvidence? {
      if PairwiseValid(evs) {
        var k := LeadingAttempts(evs[1..]);
        AttemptsCount(evs, k);
        PairwiseCut(evs, k);
        TailPairwise(evs, k);
      }
      if k :| 0 <= k < |evs| && InGrammar(evs, k) {
        if k + 1 < |evs| { AftermathHead(evs[k + 1..], k); }
        AttemptsPairwise(evs, k);
        TailPairwise(evs, k);
        PairwiseCut(evs, k);
      }
    }
  }

  lemma AftermathHead(evs: seq<Evidence>, k: nat)
    requires evs != []
    ensures Aftermath(evs, k) ==> !evs[0].Attempt? && |evs| <= 3
  {}

  /** A run of k attempts has at most k + 4 events, has one Prepared, and ends at its first terminal. */
  lemma GrammarBounds(evs: seq<Evidence>, k: nat)
    requires k < |evs| && evs[0].PreparedEvidence? && InGrammar(evs, k)
    ensures |evs| <= k + 4
    ensures forall i :: 0 < i < |evs| ==> !evs[i].PreparedEvidence?
    ensures forall i :: 0 <= i < |evs| - 1 ==> !evs[i].IsTerminal()
  {
    if k + 1 < |evs| { AftermathHead(evs[k + 1..], k); }
    AttemptsPairwise(evs, k);
    TailPairwise(evs, k);
    PairwiseCut(evs, k);
    forall i | 0 < i < |evs| ensures !evs[i].PreparedEvidence? {
      assert ValidTransition(evs[i - 1], evs[i]);
    }
    forall i | 0 <= i < |evs| - 1 ensures !evs[i].IsTerminal() {
      assert ValidTransition(evs[i], evs[i + 1]);
    }
  }

  // ----- what acceptance says about one event -----

  /** Evidence is bound to a record exactly when the route it bears, if any, is the frozen one, and the
      report it bears, if any, is by the ticket's endpoint, of its sender and of the signed message. */
  lemma BoundExactly(e: Evidence, p: PreparedRecord)
    ensures e.BoundTo(p) <==>
      && (e.Attempt? || e.Broadcast? || e.NodeResponse? || e.NotSent? ==> e.routeId == p.provenance.routeId)
      && (e.ReportedSuccess? || e.ReportedFailure? ==>
            e.tx.sourceEndpoint == p.ticket.endpointIdentity && e.tx.senderAddress == p.ticket.senderAddress
            && e.tx.extMsgHash == p.extMsgHash)
  {}

  /** Every event of an accepted record bears its record's route, or reports on its message by its
      endpoint, with the outcome its name says; attempts are numbered from one. */
  lemma AcceptedEventIsBound(r: SendRecord, i: nat)
    requires StaticOk(r) && i < |r.deliveryEvents|
    ensures var e, p := r.deliveryEvents[i].evidence, r.prepared;
      && (e.Attempt? || e.Broadcast? || e.NodeResponse? || e.NotSent? ==> e.routeId == p.provenance.routeId && e.routeId != [])
      && (e.Attempt? || e.Broadcast? || e.NodeResponse? ==> 1 <= e.attemptNo <= i)
      && (e.ReportedSuccess? || e.ReportedFailure? ==>
            e.tx.sourceEndpoint == p.ticket.endpointIdentity && e.tx.senderAddress == p.ticket.senderAddress
            && e.tx.extMsgHash == p.extMsgHash && e.tx.success == e.ReportedSuccess?)
    ensures r.prepared.provenance.sourceEndpoint == r.prepared.ticket.endpointIdentity
    ensures r.prepared.provenance.signatureGlobalId == r.prepared.ticket.networkGlobalId
  {
    BoundExactly(r.deliveryEvents[i].evidence, r.prepared);
    AttemptsCountUp(r, i);
  }

  /** No more attempts than events. */
  lemma {:induction false} AttemptsCountUp(r: SendRecord, i: nat)
    requires StaticOk(r) && i < |r.deliveryEvents|
    ensures var e := r.deliveryEvents[i].evidence; e.Attempt? || e.Broadcast? || e.NodeResponse? ==> e.attemptNo <= i
  {
    if i > 0 {
      AttemptsCountUp(r, i - 1);
      assert ValidTransition(EvidenceOf(r.deliveryEvents)[i - 1], EvidenceOf(r.deliveryEvents)[i]);
    }
  }

  /** Terminal evidence is what stops a record from blocking. */
  lemma TerminalMeansResolved(e: Evidence)
    ensures e.IsTerminal() <==> !e.Tag().IsBlocking()
    ensures e.Tag().Code() == (
      if e.PreparedEvidence? then 0 else if e.Attempt? then 1 else if e.Broadcast? then 2 else if e.NodeResponse? then 3
      else if e.ReportedSuccess? then 4 else if e.ReportedFailure? then 5 else if e.NotSent? then 8
      else if e.outcome.Success? then 6 else 7)
  {}

  /** An accepted ceiling covers the estimate and stays within the cap, and overstates the estimate by
      at most the headroom unless it is the cap itself; nothing else is asked. */
  lemma FeeRuleCovers(estimated: U128, ceiling: U128)
    ensures FeeRule(estimated, ceiling) <==>
      estimated <= ceiling <= 1_000_000_000 && (ceiling == 1_000_000_000 || ceiling - estimated <= 400_000)
  {}
}
