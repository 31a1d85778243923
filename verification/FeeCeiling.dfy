/** Choosing the local fee ceiling (crates/cc-wallet-chain/src/wallet_service.rs): a binary
    search over a monotone affordability test, and why its result survives preparation and replay. */
module FeeCeiling {
  import opened Wrappers
  import opened Bytes
  import opened Amounts
  import opened Affordability
  import opened Sorting
  import opened Delivery
  import opened Replay

  datatype ChainError = DesiredBelowExact | OutOfDomain | Inconsistent | InsufficientFunds | FeeOutOfRange

  const FEE_ESTIMATE_FLOOR_NANOS := 100_000

  predicate FeeWithinBounds(fee: U128) {
    FEE_ESTIMATE_FLOOR_NANOS <= fee <= LOCAL_SEND_FEE_CEILING_NANOS - LOCAL_SEND_FEE_HEADROOM_NANOS
  }

  /** The fee, and for a native send the transfer plus the fee, are native amounts. */
  predicate CeilingInDomain(ticket: SendTicket, ceiling: U128) {
    var value := ticket.request.value;
    (if value.asset.Native? then value.units else 0) + ceiling <= NATIVE_MAX_UNITS
  }

  function ReservationsForTicket(ticket: SendTicket, ceiling: U128): (r: Result<seq<Reservation>, ChainError>)
    ensures r.Ok? <==> CeilingInDomain(ticket, ceiling)
  {
    if ceiling > NATIVE_MAX_UNITS then Err(OutOfDomain)
    else
      var fee: AssetAmount := TaggedUnits(Native, ceiling);
      var value := ticket.request.value;
      if value.asset.Native? then
        var total := CheckedAdd(value, fee);
        if total.Err? then Err(OutOfDomain) else Ok([Reservation(ticket.recordId, total.value, Transfer)])
      else
        Ok([Reservation(ticket.recordId, value, Transfer), Reservation(ticket.recordId, fee, NativeFee)])
  }

  function AmountsOf(rows: seq<Reservation>): (r: seq<AssetAmount>)
    ensures |r| == |rows| && forall i :: 0 <= i < |r| ==> r[i] == rows[i].amount
  {
    seq(|rows|, i requires 0 <= i < |rows| => rows[i].amount)
  }

  /** What a ceiling asks of the balances. */
  function RequestAt(ticket: SendTicket, ceiling: U128): seq<AssetAmount>
    requires CeilingInDomain(ticket, ceiling)
  {
    AmountsOf(ReservationsForTicket(ticket, ceiling).value)
  }

  ghost predicate AffordableAt(ticket: SendTicket, ceiling: U128, balances: seq<AssetAmount>,
                               active: seq<Reservation>, overlap: seq<Reservation>)
    requires CeilingInDomain(ticket, ceiling)
  {
    Affordable(balances, active, overlap, RequestAt(ticket, ceiling))
  }

  /** The inputs the evaluation accepts; they do not depend on the ceiling. */
  predicate InputsConsistent(balances: seq<AssetAmount>, active: seq<Reservation>, overlap: seq<Reservation>) {
    Consistent(balances, active, overlap, [])
  }

  lemma RequestUnits(ticket: SendTicket, ceiling: U128, asset: AssetId)
    requires CeilingInDomain(ticket, ceiling)
    ensures var value := ticket.request.value;
      UnitsFor(RequestAt(ticket, ceiling), asset) ==
        (if asset.Native? then ceiling + (if value.asset.Native? then value.units else 0)
         else if asset == value.asset then value.units else 0)
    ensures DistinctAssets(RequestAt(ticket, ceiling))
  {
    var r := RequestAt(ticket, ceiling);
    if |r| == 2 {
      assert r[1..] == [r[1]];
      assert UnitsFor([r[1]], asset) == (if r[1].asset == asset then r[1].units else 0);
    } else {
      assert r[1..] == [];
    }
  }

  lemma ConsistentAt(ticket: SendTicket, ceiling: U128, balances: seq<AssetAmount>,
                     active: seq<Reservation>, overlap: seq<Reservation>)
    requires CeilingInDomain(ticket, ceiling)
    ensures Consistent(balances, active, overlap, RequestAt(ticket, ceiling)) <==>
      InputsConsistent(balances, active, overlap)
  {
    RequestUnits(ticket, ceiling, Native);
  }

  /** Raising the ceiling never makes a send affordable. */
  lemma AffordableIsAntitone(ticket: SendTicket, low: U128, high: U128, balances: seq<AssetAmount>,
                             active: seq<Reservation>, overlap: seq<Reservation>)
    requires low <= high && CeilingInDomain(ticket, high) && AffordableAt(ticket, high, balances, active, overlap)
    ensures AffordableAt(ticket, low, balances, active, overlap)
  {
    forall asset ensures UnitsFor(RequestAt(ticket, low), asset) <= UnitsFor(RequestAt(ticket, high), asset) {
      RequestUnits(ticket, low, asset);
      RequestUnits(ticket, high, asset);
    }
    VerdictIsMonotone(balances, active, overlap, RequestAt(ticket, high), balances, overlap, RequestAt(ticket, low));
  }

  /** `affordable_ticket_reservations`. */
  method AffordableTicketReservations(ticket: SendTicket, ceiling: U128, balances: seq<AssetAmount>,
                                      active: seq<Reservation>, overlap: seq<Reservation>)
    returns (r: Result<Option<seq<Reservation>>, ChainError>)
    ensures r.Ok? <==> CeilingInDomain(ticket, ceiling) && InputsConsistent(balances, active, overlap)
    ensures r.Err? ==> r.error == (if !CeilingInDomain(ticket, ceiling) then OutOfDomain else Inconsistent)
    ensures r.Ok? ==>
      r.value == (if AffordableAt(ticket, ceiling, balances, active, overlap)
                  then Some(ReservationsForTicket(ticket, ceiling).value) else None)
  {
    var reservations := ReservationsForTicket(ticket, ceiling);
    if reservations.Err? { return Err(reservations.error); }
    ConsistentAt(ticket, ceiling, balances, active, overlap);
    var report := EvaluateAffordability(balances, active, overlap, AmountsOf(reservations.value));
    if report.Err? { return Err(Inconsistent); }
    return Ok(if IsAffordable(report.value) then Some(reservations.value) else None);
  }

  /** `select_affordable_fee_ceiling`: succeeds exactly when the exact fee is affordable and the
      desired ceiling leaves the transfer in its domain, and then returns the largest affordable
      ceiling between the two, with the reservations that go with it. */
  method SelectAffordableFeeCeiling(ticket: SendTicket, exact: U128, desired: U128, balances: seq<AssetAmount>,
                                    active: seq<Reservation>, overlap: seq<Reservation>)
    returns (r: Result<(U128, seq<Reservation>), ChainError>)
    ensures r.Ok? <==>
      && exact <= desired && InputsConsistent(balances, active, overlap)
      && CeilingInDomain(ticket, desired) && AffordableAt(ticket, exact, balances, active, overlap)
    ensures r.Ok? ==>
      && exact <= r.value.0 <= desired
      && AffordableAt(ticket, r.value.0, balances, active, overlap)
      && ReservationsForTicket(ticket, r.value.0) == Ok(r.value.1)
      && forall c :: r.value.0 < c <= desired ==> !AffordableAt(ticket, c, balances, active, overlap)
    ensures r.Err? && desired < exact ==> r.error == DesiredBelowExact
    ensures r.Err? && exact <= desired && InputsConsistent(balances, active, overlap) && CeilingInDomain(ticket, desired)
      ==> r.error == InsufficientFunds
  {
    if desired < exact { return Err(DesiredBelowExact); }
    var atExact := AffordableTicketReservations(ticket, exact, balances, active, overlap);
    if atExact.Err? { return Err(atExact.error); }
    if atExact.value.None? { return Err(InsufficientFunds); }
    if desired == exact { return Ok((exact, atExact.value.value)); }
    var atDesired := AffordableTicketReservations(ticket, desired, balances, active, overlap);
    if atDesired.Err? { return Err(atDesired.error); }
    if atDesired.value.Some? { return Ok((desired, atDesired.value.value)); }
    var affordable, unaffordable: U128 := exact, desired;
    var reservations := atExact.value.value;
    while affordable + 1 < unaffordable
      invariant exact <= affordable < unaffordable <= desired
      invariant AffordableAt(ticket, affordable, balances, active, overlap)
      invariant !AffordableAt(ticket, unaffordable, balances, active, overlap)
      invariant ReservationsForTicket(ticket, affordable) == Ok(reservations)
      decreases unaffordable - affordable
    {
      var midpoint := affordable + (unaffordable - affordable) / 2;
      var probe := AffordableTicketReservations(ticket, midpoint, balances, active, overlap);
      if probe.value.Some? {
        affordable, reservations := midpoint, probe.value.value;
      } else {
        unaffordable := midpoint;
      }
    }
    forall c | affordable < c <= desired ensures !AffordableAt(ticket, c, balances, active, overlap) {
      if AffordableAt(ticket, c, balances, active, overlap) {
        AffordableIsAntitone(ticket, unaffordable, c, balances, active, overlap);
      }
    }
    return Ok((affordable, reservations));
  }

  /** The ceiling chosen from a fee within bounds and its headroom obeys the provenance fee rule. */
  lemma ChosenCeilingObeysFeeRule(exact: U128, chosen: U128)
    requires FeeWithinBounds(exact) && exact <= chosen <= exact + LOCAL_SEND_FEE_HEADROOM_NANOS
    ensures FeeRule(exact, chosen)
  {}

  /** The reservations built for a ticket are the ones `validate_reservations` demands, except
      that a currency-collection send with a zero ceiling would hold a zero fee row. */
  lemma BuiltReservationsFit(ticket: SendTicket, ceiling: U128)
    requires CeilingInDomain(ticket, ceiling) && ticket.request.value.units > 0
    ensures ReservationsFit(ticket, ceiling, ReservationsForTicket(ticket, ceiling).value) <==>
      ticket.request.value.asset.Native? || ceiling > 0
  {
    var rows := ReservationsForTicket(ticket, ceiling).value;
    if !ticket.request.value.asset.Native? {
      assert rows[1].amount.units == ceiling;
      assert rows[1..] == [rows[1]] && rows[1..][1..] == [];
      assert CountRows(rows[1..], Transfer, ticket.request.value) == 0;
      assert CountRows(rows[1..], NativeFee, TaggedUnits(Native, ceiling)) == 1;
    }
  }

  /** A record prepared with the selected ceiling passes the provenance fee rule, the reservation
      check and, while the blocking records' reservations are still the ones it was prepared
      against in whatever order, the affordability check of the replay. */
  lemma SelectedCeilingSurvives(p: PreparedRecord, exact: U128, active: seq<Reservation>, blocking: RecordMap)
    requires FeeWithinBounds(exact) && p.ticket.request.value.units > 0
    requires exact <= p.provenance.localFeeCeilingNative <= exact + LOCAL_SEND_FEE_HEADROOM_NANOS
    requires p.provenance.estimatedFeeNative == exact
    requires p.provenance.sourceEndpoint == p.ticket.endpointIdentity
    requires p.provenance.signatureGlobalId == p.ticket.networkGlobalId
    requires CeilingInDomain(p.ticket, p.provenance.localFeeCeilingNative)
    requires ReservationsForTicket(p.ticket, p.provenance.localFeeCeilingNative) == Ok(p.reservations)
    requires InputsConsistent(p.provenance.balances, active, p.provenance.authorizedOverlap)
    requires AffordableAt(p.ticket, p.provenance.localFeeCeilingNative, p.provenance.balances, active,
                          p.provenance.authorizedOverlap)
    requires multiset(active) == multiset(Outstanding(blocking, Some(p.ticket.SigningScope())))
    ensures FeeRule(p.provenance.estimatedFeeNative, p.provenance.localFeeCeilingNative)
    ensures PreparedShape(p)
    ensures Funded(p, blocking)
  {
    var ceiling := p.provenance.localFeeCeilingNative;
    ChosenCeilingObeysFeeRule(exact, ceiling);
    BuiltReservationsFit(p.ticket, ceiling);
    ConsistentAt(p.ticket, ceiling, p.provenance.balances, active, p.provenance.authorizedOverlap);
    assert Requested(p) == RequestAt(p.ticket, ceiling);
    var outstanding := Outstanding(blocking, Some(p.ticket.SigningScope()));
    VerdictIgnoresOrder(p.provenance.balances, active, p.provenance.authorizedOverlap, Requested(p),
                        p.provenance.balances, outstanding, p.provenance.authorizedOverlap, Requested(p));
  }
}
