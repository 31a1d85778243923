/** Asset identifiers and amounts (crates/cc-wallet-domain/src/amount.rs and asset.rs):
    the 120-bit native domain, the 248-bit currency-collection domain and the
    checked arithmetic that never leaves them. */
module Amounts {
  import opened Wrappers
  import opened Bytes

  const NATIVE_MAX_UNITS := 0xFF_FFFF_FFFF_FFFF_FFFF_FFFF_FFFF_FFFF
  const CC_MAX_UNITS := 0xFF_FFFF_FFFF_FFFF_FFFF_FFFF_FFFF_FFFF_FFFF_FFFF_FFFF_FFFF_FFFF_FFFF_FFFF_FFFF
  const U128_MAX := 0xFFFF_FFFF_FFFF_FFFF_FFFF_FFFF_FFFF_FFFF

  type U128 = n: int | 0 <= n <= U128_MAX

  datatype AssetId = Native | CurrencyCollection(id: U32)
  {
    function MaxUnits(): nat {
      if Native? then NATIVE_MAX_UNITS else CC_MAX_UNITS
    }

    predicate IsKnownCc() {
      CurrencyCollection? && 1 <= id <= 3
    }

    predicate IsSendable() {
      Native? || IsKnownCc()
    }
  }

  datatype TaggedUnits = TaggedUnits(asset: AssetId, units: nat)

  /** An amount is a unit count inside its asset's domain. */
  type AssetAmount = a: TaggedUnits | a.units <= a.asset.MaxUnits() witness TaggedUnits(Native, 0)

  datatype AmountError =
    | Empty | NonCanonicalDecimal | TooManyDigits | ExtraCurrencyOutOfDomain
    | NativeOutOfDomain | Overflow | Underflow | AssetMismatch

  function ZeroAmount(asset: AssetId): AssetAmount {
    TaggedUnits(asset, 0)
  }

  function NativeAmount(units: nat): (r: Result<AssetAmount, AmountError>)
    ensures r.Ok? <==> units <= NATIVE_MAX_UNITS
  {
    if units > NATIVE_MAX_UNITS then Err(NativeOutOfDomain) else Ok(TaggedUnits(Native, units))
  }

  /** Addition succeeds exactly inside the shared domain, and then it is exact. */
  function CheckedAdd(a: AssetAmount, b: AssetAmount): (r: Result<AssetAmount, AmountError>)
    ensures r.Ok? <==> a.asset == b.asset && a.units + b.units <= a.asset.MaxUnits()
    ensures r.Ok? ==> r.value.asset == a.asset && r.value.units == a.units + b.units
  {
    match (a.asset, b.asset)
    case (Native, Native) =>
      // two 120-bit values cannot overflow the u128 sum, so only the domain check can refuse
      NativeAmount(a.units + b.units)
    case (CurrencyCollection(i), CurrencyCollection(j)) =>
      if i != j then Err(AssetMismatch)
      else if a.units + b.units > CC_MAX_UNITS then Err(Overflow)
      else Ok(TaggedUnits(a.asset, a.units + b.units))
    case _ => Err(AssetMismatch)
  }

  function CheckedSub(a: AssetAmount, b: AssetAmount): (r: Result<AssetAmount, AmountError>)
    ensures r.Ok? <==> a.asset == b.asset && b.units <= a.units
    ensures r.Ok? ==> r.value.asset == a.asset && r.value.units == a.units - b.units
  {
    if a.asset != b.asset then Err(AssetMismatch)
    else if a.units < b.units then Err(Underflow)
    else Ok(TaggedUnits(a.asset, a.units - b.units))
  }

  /** `biguint_to_amount`: an unbounded sum becomes an amount only inside the domain. */
  function ToAmount(units: nat, asset: AssetId): (r: Option<AssetAmount>)
    ensures r.Some? <==> units <= asset.MaxUnits()
    ensures r.Some? ==> r.value.asset == asset && r.value.units == units
  {
    if units <= asset.MaxUnits() then Some(TaggedUnits(asset, units)) else None
  }
}
