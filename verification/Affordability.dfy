/** Per-asset affordability (crates/cc-wallet-domain/src/affordability.rs): the loops of
    `evaluate_affordability`, and the closed form over unbounded naturals they decide. */
module Affordability {
  import opened Wrappers
  import opened Bytes
  import opened Amounts
  import opened Sorting

  datatype ReservationKind = Transfer | NativeFee

  datatype Reservation = Reservation(recordId: Bytes32, amount: AssetAmount, kind: ReservationKind)

  datatype AffordabilityError =
    | DuplicateAsset(asset: AssetId) | DuplicateReservation | DuplicateOverlap | OverlapRowNotReserved

  datatype AssetAffordability = AssetAffordability(
    asset: AssetId, balance: AssetAmount, reserved: Option<AssetAmount>, available: Option<AssetAmount>,
    requested: AssetAmount, components: seq<AssetAmount>, worstCase: Option<AssetAmount>,
    sufficient: bool, worstCaseWarns: bool)

  // ----- the closed form -----

  predicate DistinctAssets(amounts: seq<AssetAmount>) {
    forall i, j :: 0 <= i < j < |amounts| ==> amounts[i].asset != amounts[j].asset
  }

  /** The units listed for an asset; an unlisted asset counts as zero. */
  function UnitsFor(amounts: seq<AssetAmount>, asset: AssetId): nat {
    if amounts == [] then 0
    else if amounts[0].asset == asset then amounts[0].units
    else UnitsFor(amounts[1..], asset)
  }

  /** The sum over the rows of one asset that are not waived by `overlap`. */
  function ReservedUnits(rows: seq<Reservation>, overlap: seq<Reservation>, asset: AssetId): nat {
    if rows == [] then 0
    else
      (if rows[0].amount.asset == asset && rows[0] !in overlap then rows[0].amount.units else 0)
      + ReservedUnits(rows[1..], overlap, asset)
  }

  predicate Covered(balances: seq<AssetAmount>, rows: seq<Reservation>, overlap: seq<Reservation>,
                    requested: seq<AssetAmount>, asset: AssetId)
  {
    ReservedUnits(rows, overlap, asset) + UnitsFor(requested, asset) <= UnitsFor(balances, asset)
  }

  /** Every asset's outstanding reservations plus the request fit in its balance. */
  ghost predicate Affordable(balances: seq<AssetAmount>, rows: seq<Reservation>, overlap: seq<Reservation>,
                             requested: seq<AssetAmount>)
  {
    forall asset :: Covered(balances, rows, overlap, requested, asset)
  }

  /** The inputs `evaluate_affordability` accepts. */
  predicate Consistent(balances: seq<AssetAmount>, rows: seq<Reservation>, overlap: seq<Reservation>,
                       requested: seq<AssetAmount>)
  {
    && DistinctAssets(balances) && DistinctAssets(requested)
    && Distinct(rows) && Distinct(overlap)
    && forall i :: 0 <= i < |overlap| ==> overlap[i] in rows
  }

  // ----- the evaluation -----

  method IndexByAsset(amounts: seq<AssetAmount>)
    returns (r: Result<map<AssetId, AssetAmount>, AffordabilityError>)
    ensures r.Ok? <==> DistinctAssets(amounts)
    ensures r.Ok? ==> forall asset :: asset in r.value ==> r.value[asset].asset == asset
    ensures r.Ok? ==> forall asset ::
      UnitsFor(amounts, asset) == (if asset in r.value then r.value[asset].units else 0)
    ensures r.Ok? ==> forall i :: 0 <= i < |amounts| ==> amounts[i].asset in r.value
    ensures r.Err? ==> r.error.DuplicateAsset?
  {
    var index: map<AssetId, AssetAmount> := map[];
    for i := 0 to |amounts|
      invariant DistinctAssets(amounts[..i])
      invariant forall asset :: asset in index <==> exists k :: 0 <= k < i && amounts[k].asset == asset
      invariant forall k :: 0 <= k < i ==> amounts[k].asset in index && index[amounts[k].asset] == amounts[k]
    {
      if amounts[i].asset in index {
        return Err(DuplicateAsset(amounts[i].asset));
      }
      index := index[amounts[i].asset := amounts[i]];
    }
    assert amounts[..|amounts|] == amounts;
    forall asset
      ensures UnitsFor(amounts, asset) == (if asset in index then index[asset].units else 0)
    {
      if asset in index {
        var k :| 0 <= k < |amounts| && amounts[k].asset == asset;
        UnitsForMember(amounts, k);
      } else {
        UnitsForAbsent(amounts, asset);
      }
    }
    return Ok(index);
  }

  /** The places of the rows of one asset and one amount, of either kind, that `overlap` does not waive. */
  ghost function Unwaived(rows: seq<Reservation>, overlap: seq<Reservation>, asset: AssetId, a: AssetAmount): set<nat> {
    set i: nat | i < |rows| && rows[i].amount == a && a.asset == asset && rows[i] !in overlap
  }

  /** The listed amounts are exactly those of the unwaived rows of the asset, each as often as it occurs. */
  ghost predicate ListsUnwaived(components: seq<AssetAmount>, rows: seq<Reservation>, overlap: seq<Reservation>, asset: AssetId) {
    forall a :: multiset(components)[a] == |Unwaived(rows, overlap, asset, a)|
  }

  lemma UnwaivedSnoc(rows: seq<Reservation>, row: Reservation, overlap: seq<Reservation>, asset: AssetId, a: AssetAmount)
    ensures |Unwaived(rows + [row], overlap, asset, a)| ==
      |Unwaived(rows, overlap, asset, a)| + (if row.amount == a && a.asset == asset && row !in overlap then 1 else 0)
  {
    var before := Unwaived(rows, overlap, asset, a);
    if row.amount == a && a.asset == asset && row !in overlap {
      assert Unwaived(rows + [row], overlap, asset, a) == before + {|rows|};
    } else {
      assert Unwaived(rows + [row], overlap, asset, a) == before;
    }
  }

  lemma UnwaivedGrows(components: seq<AssetAmount>, rows: seq<Reservation>, row: Reservation, overlap: seq<Reservation>,
                      asset: AssetId)
    requires ListsUnwaived(components, rows, overlap, asset)
    ensures ListsUnwaived(if row.amount.asset == asset && row !in overlap then components + [row.amount] else components,
                          rows + [row], overlap, asset)
  {
    var longer := if row.amount.asset == asset && row !in overlap then components + [row.amount] else components;
    forall a ensures multiset(longer)[a] == |Unwaived(rows + [row], overlap, asset, a)| {
      UnwaivedSnoc(rows, row, overlap, asset, a);
    }
  }

  method EvaluateAsset(asset: AssetId, b: AssetAmount, n: AssetAmount,
                       rows: seq<Reservation>, overlap: seq<Reservation>)
    returns (o: AssetAffordability)
    requires b.asset == asset && n.asset == asset
    ensures o.asset == asset && o.balance == b && o.requested == n
    ensures o.sufficient <==> ReservedUnits(rows, overlap, asset) + n.units <= b.units
    ensures o.worstCaseWarns <==> ReservedUnits(rows, [], asset) + n.units > b.units
    ensures o.reserved == ToAmount(ReservedUnits(rows, overlap, asset), asset)
    ensures o.available.Some? <==> ReservedUnits(rows, overlap, asset) <= b.units
    ensures o.available.Some? ==> o.available.value.units == b.units - ReservedUnits(rows, overlap, asset)
    ensures TotalUnits(o.components) == ReservedUnits(rows, overlap, asset)
    ensures ListsUnwaived(o.components, rows, overlap, asset)
    ensures o.worstCase == ToAmount(ReservedUnits(rows, [], asset) + n.units, asset)
  {
    var reservedBig, allBig: nat := 0, 0;
    var components: seq<AssetAmount> := [];
    for i := 0 to |rows|
      invariant reservedBig + ReservedUnits(rows[i..], overlap, asset) == ReservedUnits(rows, overlap, asset)
      invariant allBig + ReservedUnits(rows[i..], [], asset) == ReservedUnits(rows, [], asset)
      invariant TotalUnits(components) == reservedBig
      invariant ListsUnwaived(components, rows[..i], overlap, asset)
    {
      assert rows[i..][0] == rows[i] && rows[i..][1..] == rows[i + 1..];
      assert rows[..i + 1] == rows[..i] + [rows[i]];
      UnwaivedGrows(components, rows[..i], rows[i], overlap, asset);
      if rows[i].amount.asset == asset {
        allBig := allBig + rows[i].amount.units;
        if rows[i] !in overlap {
          reservedBig := reservedBig + rows[i].amount.units;
          TotalUnitsSnoc(components, rows[i].amount);
          components := components + [rows[i].amount];
        }
      }
    }
    assert rows[..|rows|] == rows;
    var reserved := ToAmount(reservedBig, asset);
    var available: Option<AssetAmount> := None;
    if reserved.Some? && reserved.value.units <= b.units {
      available := Some(CheckedSub(b, reserved.value).value);
    }
    var worstCase := ToAmount(allBig + n.units, asset);
    var worstCaseWarns := worstCase.None? || worstCase.value.units > b.units;
    var sufficient := available.Some? && n.units <= b.units && n.units <= available.value.units;
    o := AssetAffordability(asset, b, reserved, available, n, components, worstCase, sufficient, worstCaseWarns);
  }

  predicate AssetLe(a: AssetId, b: AssetId) {
    a.Native? || (b.CurrencyCollection? && a.id <= b.id)
  }

  lemma LeastAssetExists(assets: set<AssetId>)
    requires assets != {}
    ensures exists least :: least in assets && forall a :: a in assets ==> AssetLe(least, a)
  {
    var a :| a in assets;
    if assets == {a} {
      assert forall x :: x in assets ==> AssetLe(a, x);
    } else {
      LeastAssetExists(assets - {a});
      var least :| least in assets - {a} && forall x :: x in assets - {a} ==> AssetLe(least, x);
      var min := if AssetLe(a, least) then a else least;
      assert forall x :: x in assets ==> AssetLe(min, x) by {
        forall x | x in assets ensures AssetLe(min, x) {
          assert x == a || x in assets - {a};
        }
      }
    }
  }

  /** The next asset of a `BTreeSet` walk. */
  function LeastAsset(assets: set<AssetId>): (least: AssetId)
    requires assets != {}
    ensures least in assets && forall a :: a in assets ==> AssetLe(least, a)
  {
    LeastAssetExists(assets);
    var least :| least in assets && forall a :: a in assets ==> AssetLe(least, a);
    least
  }

  /** One outcome says exactly what the closed form says about its asset. */
  predicate OutcomeAgrees(o: AssetAffordability, balances: seq<AssetAmount>, rows: seq<Reservation>,
                          overlap: seq<Reservation>, requested: seq<AssetAmount>)
  {
    && o.balance == TaggedUnits(o.asset, UnitsFor(balances, o.asset))
    && o.requested == TaggedUnits(o.asset, UnitsFor(requested, o.asset))
    && (o.sufficient <==> Covered(balances, rows, overlap, requested, o.asset))
    && (o.worstCaseWarns <==> !Covered(balances, rows, [], requested, o.asset))
  }

  /** The listed assets ascend and are exactly `assets`. */
  ghost predicate Lists(outcomes: seq<AssetAffordability>, assets: set<AssetId>) {
    && (forall i, j :: 0 <= i < j < |outcomes| ==>
      outcomes[i].asset != outcomes[j].asset && AssetLe(outcomes[i].asset, outcomes[j].asset))
    && (forall i :: 0 <= i < |outcomes| ==> outcomes[i].asset in assets)
    && (forall a :: a in assets ==> exists i :: 0 <= i < |outcomes| && outcomes[i].asset == a)
  }

  lemma ListsExtend(outcomes: seq<AssetAffordability>, assets: set<AssetId>, o: AssetAffordability)
    requires Lists(outcomes, assets) && o.asset !in assets
    requires forall a :: a in assets ==> AssetLe(a, o.asset)
    ensures Lists(outcomes + [o], assets + {o.asset})
  {
    var longer := outcomes + [o];
    forall a | a in assets + {o.asset} ensures exists i :: 0 <= i < |longer| && longer[i].asset == a {
      if a == o.asset {
        assert longer[|outcomes|].asset == a;
      } else {
        var i :| 0 <= i < |outcomes| && outcomes[i].asset == a;
        assert longer[i].asset == a;
      }
    }
  }

  method EvaluateRelevant(all: set<AssetId>, balanceIndex: map<AssetId, AssetAmount>,
                          requestIndex: map<AssetId, AssetAmount>, balances: seq<AssetAmount>,
                          rows: seq<Reservation>, overlap: seq<Reservation>, requested: seq<AssetAmount>)
    returns (outcomes: seq<AssetAffordability>)
    requires forall asset :: asset in balanceIndex ==> balanceIndex[asset].asset == asset
    requires forall asset :: asset in requestIndex ==> requestIndex[asset].asset == asset
    requires forall asset ::
      UnitsFor(balances, asset) == (if asset in balanceIndex then balanceIndex[asset].units else 0)
    requires forall asset ::
      UnitsFor(requested, asset) == (if asset in requestIndex then requestIndex[asset].units else 0)
    ensures Lists(outcomes, all)
    ensures forall i :: 0 <= i < |outcomes| ==> OutcomeAgrees(outcomes[i], balances, rows, overlap, requested)
  {
    outcomes := [];
    var relevant, done := all, {};
    while relevant != {}
      invariant done !! relevant && done + relevant == all
      invariant Lists(outcomes, done)
      invariant forall d, a :: d in done && a in relevant ==> AssetLe(d, a)
      invariant forall i :: 0 <= i < |outcomes| ==> OutcomeAgrees(outcomes[i], balances, rows, overlap, requested)
      decreases relevant
    {
      var asset := LeastAsset(relevant);
      var b := if asset in balanceIndex then balanceIndex[asset] else ZeroAmount(asset);
      var n := if asset in requestIndex then requestIndex[asset] else ZeroAmount(asset);
      var o := EvaluateAsset(asset, b, n, rows, overlap);
      ListsExtend(outcomes, done, o);
      outcomes := outcomes + [o];
      relevant, done := relevant - {asset}, done + {asset};
    }
    assert done == all;
  }

  /** `evaluate_affordability`: refuses exactly the inconsistent inputs; otherwise reports,
      in ascending order, one outcome per asset that is reserved or requested, each agreeing
      with the closed form, so that the report is affordable exactly when `Affordable` holds. */
  method EvaluateAffordability(balances: seq<AssetAmount>, rows: seq<Reservation>,
                               overlap: seq<Reservation>, requested: seq<AssetAmount>)
    returns (r: Result<seq<AssetAffordability>, AffordabilityError>)
    ensures r.Ok? <==> Consistent(balances, rows, overlap, requested)
    ensures r.Ok? ==> Lists(r.value, RelevantAssets(rows, requested))
    ensures r.Ok? ==> forall i :: 0 <= i < |r.value| ==>
      OutcomeAgrees(r.value[i], balances, rows, overlap, requested)
    ensures r.Ok? ==> (IsAffordable(r.value) <==> Affordable(balances, rows, overlap, requested))
    ensures r.Ok? ==> NativeThenById(r.value)
  {
    var balanceIndex := IndexByAsset(balances);
    if balanceIndex.Err? { return Err(balanceIndex.error); }
    var requestIndex := IndexByAsset(requested);
    if requestIndex.Err? { return Err(requestIndex.error); }
    if !Distinct(rows) { return Err(DuplicateReservation); }
    if !Distinct(overlap) { return Err(DuplicateOverlap); }
    for i := 0 to |overlap|
      invariant forall k :: 0 <= k < i ==> overlap[k] in rows
    {
      if overlap[i] !in rows { return Err(OverlapRowNotReserved); }
    }
    var relevant := RelevantAssets(rows, requested);
    var outcomes := EvaluateRelevant(relevant, balanceIndex.value, requestIndex.value,
                                     balances, rows, overlap, requested);
    ReportDecides(outcomes, balances, rows, overlap, requested);
    ListsAscend(outcomes, relevant);
    return Ok(outcomes);
  }

  /** The native asset first, then the currencies by ascending id. */
  predicate NativeThenById(outcomes: seq<AssetAffordability>) {
    forall i, k :: 0 <= i < k < |outcomes| ==>
      outcomes[k].asset.CurrencyCollection? && (outcomes[i].asset.Native? || outcomes[i].asset.id < outcomes[k].asset.id)
  }

  lemma ListsAscend(outcomes: seq<AssetAffordability>, assets: set<AssetId>)
    requires Lists(outcomes, assets)
    ensures NativeThenById(outcomes)
  {
    forall i, k | 0 <= i < k < |outcomes|
      ensures outcomes[k].asset.CurrencyCollection? && (outcomes[i].asset.Native? || outcomes[i].asset.id < outcomes[k].asset.id)
    {
      assert outcomes[i].asset != outcomes[k].asset && AssetLe(outcomes[i].asset, outcomes[k].asset);
    }
  }

  function RelevantAssets(rows: seq<Reservation>, requested: seq<AssetAmount>): set<AssetId> {
    (set i | 0 <= i < |rows| :: rows[i].amount.asset) + (set i | 0 <= i < |requested| :: requested[i].asset)
  }

  /** Assets outside the report need nothing, so the report alone decides affordability. */
  lemma ReportDecides(outcomes: seq<AssetAffordability>, balances: seq<AssetAmount>, rows: seq<Reservation>,
                      overlap: seq<Reservation>, requested: seq<AssetAmount>)
    requires Lists(outcomes, RelevantAssets(rows, requested))
    requires forall i :: 0 <= i < |outcomes| ==> OutcomeAgrees(outcomes[i], balances, rows, overlap, requested)
    ensures IsAffordable(outcomes) <==> Affordable(balances, rows, overlap, requested)
  {
    if IsAffordable(outcomes) {
      forall asset ensures Covered(balances, rows, overlap, requested, asset) {
        if asset in RelevantAssets(rows, requested) {
          var i :| 0 <= i < |outcomes| && outcomes[i].asset == asset;
          assert OutcomeAgrees(outcomes[i], balances, rows, overlap, requested);
        } else {
          ReservedUnitsAbsent(rows, overlap, asset);
          UnitsForAbsent(requested, asset);
        }
      }
    } else {
      var i :| 0 <= i < |outcomes| && !outcomes[i].sufficient;
      assert OutcomeAgrees(outcomes[i], balances, rows, overlap, requested);
    }
  }

  predicate IsAffordable(outcomes: seq<AssetAffordability>) {
    forall i :: 0 <= i < |outcomes| ==> outcomes[i].sufficient
  }

  function TotalUnits(amounts: seq<AssetAmount>): nat {
    if amounts == [] then 0 else amounts[0].units + TotalUnits(amounts[1..])
  }

  lemma {:induction false} TotalUnitsSnoc(amounts: seq<AssetAmount>, a: AssetAmount)
    ensures TotalUnits(amounts + [a]) == TotalUnits(amounts) + a.units
  {
    if amounts != [] {
      assert (amounts + [a])[1..] == amounts[1..] + [a];
      TotalUnitsSnoc(amounts[1..], a);
    }
  }

  lemma {:induction false} UnitsForMember(amounts: seq<AssetAmount>, k: nat)
    requires k < |amounts| && DistinctAssets(amounts)
    ensures UnitsFor(amounts, amounts[k].asset) == amounts[k].units
  {
    if k > 0 {
      UnitsForMember(amounts[1..], k - 1);
    }
  }

  lemma {:induction false} UnitsForAbsent(amounts: seq<AssetAmount>, asset: AssetId)
    requires forall k :: 0 <= k < |amounts| ==> amounts[k].asset != asset
    ensures UnitsFor(amounts, asset) == 0
  {
    if amounts != [] { UnitsForAbsent(amounts[1..], asset); }
  }

  lemma {:induction false} ReservedUnitsAbsent(rows: seq<Reservation>, overlap: seq<Reservation>, asset: AssetId)
    requires forall k :: 0 <= k < |rows| ==> rows[k].amount.asset != asset
    ensures ReservedUnits(rows, overlap, asset) == 0
  {
    if rows != [] { ReservedUnitsAbsent(rows[1..], overlap, asset); }
  }

  // ----- order independence and monotonicity of the verdict -----

  lemma {:induction false} ReservedUnitsConcat(a: seq<Reservation>, b: seq<Reservation>,
                                               overlap: seq<Reservation>, asset: AssetId)
    ensures ReservedUnits(a + b, overlap, asset) == ReservedUnits(a, overlap, asset) + ReservedUnits(b, overlap, asset)
  {
    if a == [] {
      assert a + b == b;
    } else {
      assert (a + b)[1..] == a[1..] + b;
      ReservedUnitsConcat(a[1..], b, overlap, asset);
    }
  }

  /** One more row counts its units, whatever its kind, exactly when it is of the asset and not waived. */
  lemma OneMoreRow(rows: seq<Reservation>, row: Reservation, overlap: seq<Reservation>, asset: AssetId)
    ensures ReservedUnits(rows + [row], overlap, asset) ==
      ReservedUnits(rows, overlap, asset) + if row.amount.asset == asset && row !in overlap then row.amount.units else 0
  {
    ReservedUnitsConcat(rows, [row], overlap, asset);
    assert [row][1..] == [];
  }

  /** An unwaived row of either kind lowers what can be requested of its asset by exactly its units,
      and of no other asset. */
  lemma RowLowersHeadroom(balances: seq<AssetAmount>, rows: seq<Reservation>, row: Reservation, overlap: seq<Reservation>,
                          requested: seq<AssetAmount>, larger: seq<AssetAmount>, asset: AssetId)
    requires row !in overlap
    requires UnitsFor(larger, asset) == UnitsFor(requested, asset) + if row.amount.asset == asset then row.amount.units else 0
    ensures Covered(balances, rows + [row], overlap, requested, asset) <==> Covered(balances, rows, overlap, larger, asset)
  {
    OneMoreRow(rows, row, overlap, asset);
  }

  /** A waived row changes nothing. */
  lemma WaivedRowIsFree(balances: seq<AssetAmount>, rows: seq<Reservation>, row: Reservation, overlap: seq<Reservation>,
                        requested: seq<AssetAmount>, asset: AssetId)
    requires row in overlap
    ensures Covered(balances, rows + [row], overlap, requested, asset) <==> Covered(balances, rows, overlap, requested, asset)
  {
    OneMoreRow(rows, row, overlap, asset);
  }

  lemma {:induction false} ReservedUnitsPermutation(a: seq<Reservation>, b: seq<Reservation>,
                                                    overlap: seq<Reservation>, asset: AssetId)
    requires multiset(a) == multiset(b)
    ensures ReservedUnits(a, overlap, asset) == ReservedUnits(b, overlap, asset)
  {
    if a == [] {
      assert |multiset(b)| == |multiset(a)| == 0;
    } else {
      var k := PermutationStep(a, b);
      var rest := b[..k] + b[k + 1..];
      ReservedUnitsPermutation(a[1..], rest, overlap, asset);
      assert b == b[..k] + b[k..] && b[k..][1..] == b[k + 1..];
      ReservedUnitsConcat(b[..k], b[k..], overlap, asset);
      ReservedUnitsConcat(b[..k], b[k + 1..], overlap, asset);
    }
  }

  /** A larger waiver never raises what stays reserved. */
  lemma {:induction false} ReservedUnitsAntitone(rows: seq<Reservation>, small: seq<Reservation>,
                                                 large: seq<Reservation>, asset: AssetId)
    requires forall row :: row in small ==> row in large
    ensures ReservedUnits(rows, large, asset) <= ReservedUnits(rows, small, asset)
  {
    if rows != [] { ReservedUnitsAntitone(rows[1..], small, large, asset); }
  }

  lemma DistinctAssetsPermutation(a: seq<AssetAmount>, b: seq<AssetAmount>)
    requires multiset(a) == multiset(b) && DistinctAssets(a)
    ensures DistinctAssets(b)
  {
    DistinctPermutation(a, b);
    forall i, j | 0 <= i < j < |b| ensures b[i].asset != b[j].asset {
      assert b[i] in multiset(a) && b[j] in multiset(a);
      var k :| 0 <= k < |a| && a[k] == b[i];
      var l :| 0 <= l < |a| && a[l] == b[j];
      assert k != l;
    }
  }

  lemma UnitsForPermutation(a: seq<AssetAmount>, b: seq<AssetAmount>, asset: AssetId)
    requires multiset(a) == multiset(b) && DistinctAssets(a)
    ensures UnitsFor(a, asset) == UnitsFor(b, asset)
  {
    DistinctAssetsPermutation(a, b);
    if k :| 0 <= k < |a| && a[k].asset == asset {
      assert a[k] in multiset(b);
      var l :| 0 <= l < |b| && b[l] == a[k];
      UnitsForMember(a, k);
      UnitsForMember(b, l);
    } else {
      forall l | 0 <= l < |b| ensures b[l].asset != asset {
        assert b[l] in multiset(a);
      }
      UnitsForAbsent(a, asset);
      UnitsForAbsent(b, asset);
    }
  }

  /** Acceptance and verdict depend only on which rows and amounts are listed, not on their order. */
  lemma VerdictIgnoresOrder(balances: seq<AssetAmount>, rows: seq<Reservation>, overlap: seq<Reservation>,
                            requested: seq<AssetAmount>,
                            balances': seq<AssetAmount>, rows': seq<Reservation>, overlap': seq<Reservation>,
                            requested': seq<AssetAmount>)
    requires multiset(balances) == multiset(balances') && multiset(rows) == multiset(rows')
    requires multiset(overlap) == multiset(overlap') && multiset(requested) == multiset(requested')
    requires Consistent(balances, rows, overlap, requested)
    ensures Consistent(balances', rows', overlap', requested')
    ensures Affordable(balances, rows, overlap, requested) <==> Affordable(balances', rows', overlap', requested')
  {
    DistinctAssetsPermutation(balances, balances');
    DistinctAssetsPermutation(requested, requested');
    DistinctPermutation(rows, rows');
    DistinctPermutation(overlap, overlap');
    forall row ensures row in overlap <==> row in overlap' {
      MemberOfPermutation(overlap, overlap', row);
    }
    forall i | 0 <= i < |overlap'| ensures overlap'[i] in rows' {
      MemberOfPermutation(rows, rows', overlap'[i]);
      assert overlap'[i] in overlap;
    }
    forall asset
      ensures Covered(balances, rows, overlap, requested, asset) <==> Covered(balances', rows', overlap', requested', asset)
    {
      UnitsForPermutation(balances, balances', asset);
      UnitsForPermutation(requested, requested', asset);
      ReservedUnitsPermutation(rows, rows', overlap, asset);
      ReservedUnitsAntitone(rows', overlap, overlap', asset);
      ReservedUnitsAntitone(rows', overlap', overlap, asset);
    }
  }

  /** More balance, more waiver or a smaller request never turns an affordable send away. */
  lemma VerdictIsMonotone(balances: seq<AssetAmount>, rows: seq<Reservation>, overlap: seq<Reservation>,
                          requested: seq<AssetAmount>,
                          balances': seq<AssetAmount>, overlap': seq<Reservation>, requested': seq<AssetAmount>)
    requires Affordable(balances, rows, overlap, requested)
    requires forall asset :: UnitsFor(balances, asset) <= UnitsFor(balances', asset)
    requires forall asset :: UnitsFor(requested', asset) <= UnitsFor(requested, asset)
    requires forall row :: row in overlap ==> row in overlap'
    ensures Affordable(balances', rows, overlap', requested')
  {
    forall asset ensures Covered(balances', rows, overlap', requested', asset) {
      assert Covered(balances, rows, overlap, requested, asset);
      ReservedUnitsAntitone(rows, overlap, overlap', asset);
    }
  }
}
