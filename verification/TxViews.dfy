/** The two views of one transaction: activity events (crates/cc-wallet-chain/src/activity.rs) and
    the explorer row (crates/cc-wallet-chain/src/explorer.rs). */
module TxViews {
  import opened Wrappers
  import opened Bytes
  import opened Amounts
  import Decimal
  import opened ChainTx

  datatype ViewError = BadHash | BadExtra | OutOfDomain | FeeOverflow

  // ----- what moves -----

  /** The units of one asset in a list of movements. */
  function Units(movements: seq<AssetAmount>, asset: AssetId): nat {
    if movements == [] then 0
    else
      var last := movements[|movements| - 1];
      Units(movements[..|movements| - 1], asset) + if last.asset == asset then last.units else 0
  }

  /** No asset is listed twice. */
  predicate DistinctAssets(movements: seq<AssetAmount>) {
    forall i, j :: 0 <= i < j < |movements| ==> movements[i].asset != movements[j].asset
  }

  /** The number an amount text stands for. */
  function Denoted(e: Extra): nat {
    if Decimal.AllDigits(e.text) then Decimal.Value(e.text) else 0
  }

  function ExtraUnits(extras: seq<Extra>, id: U32): nat {
    if extras == [] then 0
    else
      var last := extras[|extras| - 1];
      ExtraUnits(extras[..|extras| - 1], id) + if last.id == id then Denoted(last) else 0
  }

  /** What a message carries of an asset. */
  function MessageUnits(m: Message, asset: AssetId): nat {
    match asset
    case Native => m.valueNative
    case CurrencyCollection(id) => ExtraUnits(m.valueExtra, id)
  }

  predicate ExtraFits(e: Extra) {
    Decimal.Canonical(e.text) && Denoted(e) <= CC_MAX_UNITS
  }

  function ExtraAmount(e: Extra): (r: Result<AssetAmount, ViewError>)
    ensures r.Ok? <==> ExtraFits(e)
    ensures r.Ok? ==> r.value.asset == CurrencyCollection(e.id) && r.value.units == Denoted(e)
  {
    Decimal.CcFromDecimalExact(e.text);
    var amount := Decimal.CcFromDecimal(e.text);
    if amount.Ok? then Ok(TaggedUnits(CurrencyCollection(e.id), amount.value)) else Err(BadExtra)
  }

  predicate MovementsFit(m: Message) {
    m.valueNative <= NATIVE_MAX_UNITS && AllFit(m.valueExtra)
  }

  /** The list says what the message carries, and has no zero line beside another. */
  ghost predicate Carries(m: Message, movements: seq<AssetAmount>) {
    Tidy(movements) && forall asset :: Units(movements, asset) == MessageUnits(m, asset)
  }

  predicate Tidy(movements: seq<AssetAmount>) {
    && movements != [] && DistinctAssets(movements)
    && forall i :: 0 <= i < |movements| && movements[i].units == 0 ==> movements == [ZeroAmount(Native)]
  }

  /** Every listed currency carries its own amount, an unlisted one nothing. */
  lemma {:induction false} ExtraUnitsExact(extras: seq<Extra>, id: U32)
    requires forall i, j :: 0 <= i < j < |extras| ==> extras[i].id < extras[j].id
    ensures forall k :: 0 <= k < |extras| && extras[k].id == id ==> ExtraUnits(extras, id) == Denoted(extras[k])
    ensures (forall k :: 0 <= k < |extras| ==> extras[k].id != id) ==> ExtraUnits(extras, id) == 0
  {
    if extras != [] { ExtraUnitsExact(extras[..|extras| - 1], id); }
  }

  lemma UnitsSnoc(movements: seq<AssetAmount>, last: AssetAmount, asset: AssetId)
    ensures Units(movements + [last], asset) == Units(movements, asset) + if last.asset == asset then last.units else 0
  {
    assert (movements + [last])[..|movements|] == movements;
  }

  function ExtraLine(e: Extra): (r: seq<AssetAmount>) {
    if ExtraFits(e) && Denoted(e) > 0 then [TaggedUnits(CurrencyCollection(e.id), Denoted(e))] else []
  }

  /** The nonzero extra currencies, in the order of their ids. */
  function ExtraLines(extras: seq<Extra>): seq<AssetAmount> {
    if extras == [] then [] else ExtraLines(extras[..|extras| - 1]) + ExtraLine(extras[|extras| - 1])
  }

  /** The native line comes last, and is left out when it is zero and not alone. */
  function MovementList(m: Message): seq<AssetAmount>
    requires MovementsFit(m)
  {
    WithNative(ExtraLines(m.valueExtra), TaggedUnits(Native, m.valueNative))
  }

  function WithNative(lines: seq<AssetAmount>, native: AssetAmount): seq<AssetAmount> {
    if native.units > 0 || lines == [] then lines + [native] else lines
  }

  predicate AllFit(extras: seq<Extra>) {
    forall i :: 0 <= i < |extras| ==> ExtraFits(extras[i])
  }

  lemma ExtraLineUnits(lines: seq<AssetAmount>, e: Extra, asset: AssetId)
    requires ExtraFits(e)
    ensures Units(lines + ExtraLine(e), asset) == Units(lines, asset) + if asset == CurrencyCollection(e.id) then Denoted(e) else 0
  {
    if Denoted(e) > 0 {
      UnitsSnoc(lines, TaggedUnits(CurrencyCollection(e.id), Denoted(e)), asset);
    } else {
      assert lines + [] == lines;
    }
  }

  lemma {:induction false} ExtraLinesUnits(extras: seq<Extra>, asset: AssetId)
    requires AllFit(extras)
    ensures Units(ExtraLines(extras), asset) == match asset { case Native => 0 case CurrencyCollection(id) => ExtraUnits(extras, id) }
  {
    if extras != [] {
      var before, last := extras[..|extras| - 1], extras[|extras| - 1];
      ExtraLinesUnits(before, asset);
      ExtraLineUnits(ExtraLines(before), last, asset);
    }
  }

  /** Nonzero lines of ascending currencies, none beyond `bound`. */
  predicate Ascending(movements: seq<AssetAmount>, bound: nat) {
    && (forall k :: 0 <= k < |movements| ==>
          movements[k].units > 0 && movements[k].asset.CurrencyCollection? && movements[k].asset.id < bound)
    && forall i, j :: 0 <= i < j < |movements| ==> movements[i].asset != movements[j].asset
  }

  lemma {:induction false} ExtraLinesAscend(extras: ExtraMap, n: nat, bound: nat)
    requires n <= |extras| && forall k :: 0 <= k < n ==> extras[k].id < bound
    ensures Ascending(ExtraLines(extras[..n]), bound)
  {
    if n > 0 {
      assert extras[..n][..n - 1] == extras[..n - 1];
      ExtraLinesAscend(extras, n - 1, extras[n - 1].id);
    }
  }

  lemma WithNativeIsTidy(lines: seq<AssetAmount>, native: AssetAmount, bound: nat)
    requires Ascending(lines, bound) && native.asset == Native
    ensures Tidy(WithNative(lines, native))
  {}

  lemma MovementListUnits(m: Message, asset: AssetId)
    requires MovementsFit(m)
    ensures Units(MovementList(m), asset) == MessageUnits(m, asset)
  {
    ExtraLinesUnits(m.valueExtra, asset);
    UnitsSnoc(ExtraLines(m.valueExtra), TaggedUnits(Native, m.valueNative), asset);
  }

  /** The movement list says, asset by asset, what the message carries. */
  lemma MovementListCarries(m: Message)
    requires MovementsFit(m)
    ensures Carries(m, MovementList(m))
  {
    ExtraLinesAscend(m.valueExtra, |m.valueExtra|, U32_MAX + 1);
    assert m.valueExtra[..|m.valueExtra|] == m.valueExtra;
    WithNativeIsTidy(ExtraLines(m.valueExtra), TaggedUnits(Native, m.valueNative), U32_MAX + 1);
    forall asset ensures Units(MovementList(m), asset) == MessageUnits(m, asset) {
      MovementListUnits(m, asset);
    }
  }

  lemma ExtraLinesSnoc(extras: seq<Extra>, i: nat)
    requires i < |extras|
    ensures ExtraLines(extras[..i + 1]) == ExtraLines(extras[..i]) + ExtraLine(extras[i])
    ensures AllFit(extras[..i + 1]) <==> AllFit(extras[..i]) && ExtraFits(extras[i])
    ensures !ExtraFits(extras[i]) ==> !AllFit(extras)
  {
    assert extras[..i + 1][..i] == extras[..i];
    assert forall k :: 0 <= k < i ==> extras[..i + 1][k] == extras[..i][k];
  }

  lemma ExtraAmountLine(e: Extra)
    requires ExtraFits(e)
    ensures ExtraLine(e) == if ExtraAmount(e).value.units == 0 then [] else [ExtraAmount(e).value]
  {}

  /** The loop over the extra currencies. */
  method ListExtras(extras: seq<Extra>) returns (r: Result<seq<AssetAmount>, ViewError>)
    ensures r.Ok? <==> AllFit(extras)
    ensures r.Ok? ==> r.value == ExtraLines(extras)
  {
    var movements: seq<AssetAmount> := [];
    for i := 0 to |extras|
      invariant AllFit(extras[..i])
      invariant movements == ExtraLines(extras[..i])
    {
      ExtraLinesSnoc(extras, i);
      var amount := ExtraAmount(extras[i]);
      if amount.Err? { return Err(amount.error); }
      ExtraAmountLine(extras[i]);
      if amount.value.units != 0 {
        movements := movements + [amount.value];
      }
    }
    assert extras[..|extras|] == extras;
    return Ok(movements);
  }

  /** `message_movements`: refused exactly when an amount is malformed or out of its domain. */
  method MessageMovements(m: Message) returns (r: Result<seq<AssetAmount>, ViewError>)
    ensures r.Ok? <==> MovementsFit(m)
    ensures r.Ok? ==> r.value == MovementList(m)
  {
    var lines := ListExtras(m.valueExtra);
    if lines.Err? { return lines; }
    if m.valueNative > 0 || lines.value == [] {
      if m.valueNative > NATIVE_MAX_UNITS { return Err(OutOfDomain); }
      return Ok(lines.value + [TaggedUnits(Native, m.valueNative)]);
    }
    return lines;
  }

  // ----- totals -----

  /** Where an asset is listed first. */
  function Find(totals: seq<AssetAmount>, asset: AssetId): (k: Option<nat>)
    ensures k.Some? ==> k.value < |totals| && totals[k.value].asset == asset
    ensures k.None? ==> forall i :: 0 <= i < |totals| ==> totals[i].asset != asset
  {
    if totals == [] then None
    else
      var before := Find(totals[..|totals| - 1], asset);
      if before.Some? then before
      else if totals[|totals| - 1].asset == asset then Some(|totals| - 1)
      else None
  }

  /** One more line: added to the total of its asset, or a new total at the end. */
  function AddLine(totals: seq<AssetAmount>, line: AssetAmount): Result<seq<AssetAmount>, ViewError> {
    var k := Find(totals, line.asset);
    if k.None? then Ok(totals + [line])
    else
      var sum := CheckedAdd(totals[k.value], line);
      if sum.Ok? then Ok(totals[k.value := sum.value]) else Err(OutOfDomain)
  }

  function AddLines(lines: seq<AssetAmount>): Result<seq<AssetAmount>, ViewError> {
    if lines == [] then Ok([])
    else
      var before := AddLines(lines[..|lines| - 1]);
      if before.Ok? then AddLine(before.value, lines[|lines| - 1]) else before
  }

  lemma {:induction false} UnitsConcat(a: seq<AssetAmount>, b: seq<AssetAmount>, asset: AssetId)
    ensures Units(a + b, asset) == Units(a, asset) + Units(b, asset)
  {
    if b == [] {
      assert a + b == a;
    } else {
      assert (a + b)[..|a + b| - 1] == a + b[..|b| - 1];
      UnitsConcat(a, b[..|b| - 1], asset);
    }
  }

  lemma {:induction false} UnlistedHasNoUnits(s: seq<AssetAmount>, asset: AssetId)
    requires forall i :: 0 <= i < |s| ==> s[i].asset != asset
    ensures Units(s, asset) == 0
  {
    if s != [] { UnlistedHasNoUnits(s[..|s| - 1], asset); }
  }

  function Part(line: AssetAmount, asset: AssetId): nat {
    if line.asset == asset then line.units else 0
  }

  lemma UnitsSplit(s: seq<AssetAmount>, k: nat, x: AssetAmount, asset: AssetId)
    requires k < |s|
    ensures Units(s[k := x], asset) == Units(s[..k], asset) + Part(x, asset) + Units(s[k + 1..], asset)
  {
    UnitsSnoc(s[..k], x, asset);
    UnitsConcat(s[..k] + [x], s[k + 1..], asset);
    assert s[k := x] == s[..k] + [x] + s[k + 1..];
  }

  /** A listed asset is listed once, so its total is that line. */
  lemma ListedUnits(s: seq<AssetAmount>, k: nat)
    requires DistinctAssets(s) && k < |s|
    ensures Units(s, s[k].asset) == s[k].units
  {
    UnitsSplit(s, k, s[k], s[k].asset);
    assert s[k := s[k]] == s;
    UnlistedHasNoUnits(s[..k], s[k].asset);
    UnlistedHasNoUnits(s[k + 1..], s[k].asset);
  }

  lemma AddLineUnits(totals: seq<AssetAmount>, line: AssetAmount, asset: AssetId)
    requires DistinctAssets(totals) && AddLine(totals, line).Ok?
    ensures Units(AddLine(totals, line).value, asset) == Units(totals, asset) + Part(line, asset)
  {
    var k := Find(totals, line.asset);
    if k.Some? {
      var sum := CheckedAdd(totals[k.value], line).value;
      UnitsSplit(totals, k.value, sum, asset);
      UnitsSplit(totals, k.value, totals[k.value], asset);
      assert totals[k.value := totals[k.value]] == totals;
    } else {
      UnitsSnoc(totals, line, asset);
    }
  }

  lemma AddLineFits(totals: seq<AssetAmount>, line: AssetAmount)
    requires DistinctAssets(totals)
    ensures AddLine(totals, line).Ok? <==> Units(totals, line.asset) + line.units <= line.asset.MaxUnits()
    ensures AddLine(totals, line).Ok? ==> DistinctAssets(AddLine(totals, line).value)
  {
    var k := Find(totals, line.asset);
    if k.Some? { ListedUnits(totals, k.value); } else { UnlistedHasNoUnits(totals, line.asset); }
  }

  /** Every asset's total is inside its domain. */
  ghost predicate TotalsFit(lines: seq<AssetAmount>) {
    forall asset :: Units(lines, asset) <= asset.MaxUnits()
  }

  /** Adding up succeeds exactly when every total is inside its asset's domain, so the order of the
      lines does not matter; then every asset is listed once, with its total. */
  lemma {:induction false} AddLinesExact(lines: seq<AssetAmount>)
    ensures AddLines(lines).Ok? <==> TotalsFit(lines)
    ensures AddLines(lines).Ok? ==>
      DistinctAssets(AddLines(lines).value) && forall asset :: Units(AddLines(lines).value, asset) == Units(lines, asset)
  {
    if lines != [] {
      var before, last := lines[..|lines| - 1], lines[|lines| - 1];
      AddLinesExact(before);
      assert forall asset :: Units(lines, asset) == Units(before, asset) + Part(last, asset);
      if AddLines(before).Ok? {
        var totals := AddLines(before).value;
        AddLineFits(totals, last);
        if AddLine(totals, last).Ok? {
          forall asset ensures Units(AddLines(lines).value, asset) == Units(lines, asset) {
            AddLineUnits(totals, last, asset);
          }
        }
      }
    }
  }

  /** The movement lists of several messages, one after the other. */
  function AllLines(messages: seq<Message>): seq<AssetAmount>
    requires AllMovementsFit(messages)
  {
    if messages == [] then [] else AllLines(messages[..|messages| - 1]) + MovementList(messages[|messages| - 1])
  }

  predicate AllMovementsFit(messages: seq<Message>) {
    forall i :: 0 <= i < |messages| ==> MovementsFit(messages[i])
  }

  /** The totals of several messages can be shown. */
  ghost predicate SumFits(messages: seq<Message>) {
    AllMovementsFit(messages) && TotalsFit(AllLines(messages))
  }

  lemma AllLinesSnoc(messages: seq<Message>, i: nat)
    requires i < |messages| && AllMovementsFit(messages[..i + 1])
    ensures AllMovementsFit(messages[..i]) && AllLines(messages[..i + 1]) == AllLines(messages[..i]) + MovementList(messages[i])
  {
    assert messages[..i + 1][..i] == messages[..i];
    assert forall k :: 0 <= k < i ==> messages[..i][k] == messages[..i + 1][k];
  }

  /** A prefix fits if the whole does. */
  lemma PrefixFits(lines: seq<AssetAmount>, k: nat)
    requires k <= |lines|
    ensures TotalsFit(lines) ==> TotalsFit(lines[..k])
  {
    assert lines == lines[..k] + lines[k..];
    forall asset ensures Units(lines, asset) >= Units(lines[..k], asset) {
      UnitsConcat(lines[..k], lines[k..], asset);
    }
  }

  /** More lines added to totals, one after the other. */
  function AddFrom(totals: seq<AssetAmount>, lines: seq<AssetAmount>): Result<seq<AssetAmount>, ViewError> {
    if lines == [] then Ok(totals)
    else
      var before := AddFrom(totals, lines[..|lines| - 1]);
      if before.Ok? then AddLine(before.value, lines[|lines| - 1]) else before
  }

  lemma {:induction false} AddFromContinues(before: seq<AssetAmount>, lines: seq<AssetAmount>)
    requires AddLines(before).Ok?
    ensures AddLines(before + lines) == AddFrom(AddLines(before).value, lines)
  {
    if lines == [] {
      assert before + lines == before;
    } else {
      assert (before + lines)[..|before + lines| - 1] == before + lines[..|lines| - 1];
      AddFromContinues(before, lines[..|lines| - 1]);
    }
  }

  lemma {:induction false} ErrorStays(totals: seq<AssetAmount>, lines: seq<AssetAmount>, k: nat)
    requires k <= |lines| && AddFrom(totals, lines[..k]).Err?
    ensures AddFrom(totals, lines).Err?
  {
    if k == |lines| {
      assert lines[..k] == lines;
    } else {
      var shorter := lines[..|lines| - 1];
      assert shorter[..k] == lines[..k];
      ErrorStays(totals, shorter, k);
    }
  }

  /** `iter_mut().find(..)`: the first total of the asset is replaced, or a new one pushed. */
  method AddOne(totals: seq<AssetAmount>, line: AssetAmount) returns (r: Result<seq<AssetAmount>, ViewError>)
    ensures r == AddLine(totals, line)
  {
    var k := Find(totals, line.asset);
    if k.None? { return Ok(totals + [line]); }
    var sum := CheckedAdd(totals[k.value], line);
    if sum.Err? { return Err(OutOfDomain); }
    return Ok(totals[k.value := sum.value]);
  }

  /** The lines of one more message are added to the totals. */
  method AddMessage(totals: seq<AssetAmount>, movements: seq<AssetAmount>) returns (r: Result<seq<AssetAmount>, ViewError>)
    ensures r.Ok? <==> AddFrom(totals, movements).Ok?
    ensures r.Ok? ==> r == AddFrom(totals, movements)
  {
    var sums := totals;
    for j := 0 to |movements|
      invariant AddFrom(totals, movements[..j]) == Ok(sums)
    {
      assert movements[..j + 1][..j] == movements[..j];
      var added := AddOne(sums, movements[j]);
      if added.Err? {
        ErrorStays(totals, movements, j + 1);
        return added;
      }
      sums := added.value;
    }
    assert movements[..|movements|] == movements;
    return Ok(sums);
  }

  /** The first `i` messages add up to these totals. */
  ghost predicate Summed(messages: seq<Message>, i: nat, totals: seq<AssetAmount>)
    requires i <= |messages|
  {
    AllMovementsFit(messages[..i]) && AddLines(AllLines(messages[..i])) == Ok(totals)
  }

  lemma SummedStep(messages: seq<Message>, i: nat, totals: seq<AssetAmount>)
    requires i < |messages| && Summed(messages, i, totals) && MovementsFit(messages[i])
    ensures var added := AddFrom(totals, MovementList(messages[i]));
      if added.Ok? then Summed(messages, i + 1, added.value) else !SumFits(messages)
  {
    assert AllMovementsFit(messages[..i + 1]);
    AllLinesSnoc(messages, i);
    AddFromContinues(AllLines(messages[..i]), MovementList(messages[i]));
    SumFitsPrefix(messages, i + 1);
    AddLinesExact(AllLines(messages[..i + 1]));
  }

  lemma SummedAll(messages: seq<Message>, totals: seq<AssetAmount>)
    requires Summed(messages, |messages|, totals)
    ensures SumFits(messages) && AddLines(AllLines(messages)) == Ok(totals)
  {
    assert messages[..|messages|] == messages;
    AddLinesExact(AllLines(messages));
  }

  /** `sum_movements`: refused exactly when a message is malformed or a total leaves its domain. */
  method SumMovements(messages: seq<Message>) returns (r: Result<seq<AssetAmount>, ViewError>)
    ensures r.Ok? <==> SumFits(messages)
    ensures r.Ok? ==> r == AddLines(AllLines(messages))
  {
    var totals: seq<AssetAmount> := [];
    for i := 0 to |messages|
      invariant Summed(messages, i, totals)
    {
      var movements := MessageMovements(messages[i]);
      if movements.Err? { return Err(movements.error); }
      SummedStep(messages, i, totals);
      var added := AddMessage(totals, movements.value);
      if added.Err? { return added; }
      totals := added.value;
    }
    SummedAll(messages, totals);
    return Ok(totals);
  }

  lemma {:induction false} SumFitsPrefix(messages: seq<Message>, i: nat)
    requires i <= |messages|
    ensures SumFits(messages) ==> SumFits(messages[..i])
  {
    if i < |messages| && SumFits(messages) {
      var shorter := messages[..|messages| - 1];
      assert AllMovementsFit(shorter);
      PrefixFits(AllLines(messages), |AllLines(shorter)|);
      SumFitsPrefix(shorter, i);
      assert shorter[..i] == messages[..i];
    } else {
      assert i == |messages| ==> messages[..i] == messages;
    }
  }

  // ----- activity -----

  datatype ActivityEvent = ActivityEvent(
    incoming: bool,
    lt: U64,
    timeUnix: U64,
    txHash: Bytes32,
    counterparty: string,
    movements: seq<AssetAmount>,
    feeNative: nat,
    success: bool,
    bounced: bool,
    exitCode: I32,
    extMsgHash: Option<Bytes32>,
    intMsgHash: Option<Bytes32>)

  /** The internal messages, in order. */
  function Internal(messages: seq<Message>): seq<Message> {
    if messages == [] then []
    else
      var last := messages[|messages| - 1];
      Internal(messages[..|messages| - 1]) + if last.kind.Int? then [last] else []
  }

  /** The places of the internal messages, in order. */
  function InternalPlaces(messages: seq<Message>): (places: seq<nat>)
    ensures forall i: nat :: i in places <==> i < |messages| && messages[i].kind.Int?
    ensures forall k, l :: 0 <= k < l < |places| ==> places[k] < places[l]
  {
    if messages == [] then []
    else
      var before := InternalPlaces(messages[..|messages| - 1]);
      assert forall k :: 0 <= k < |before| ==> before[k] in before;
      before + if messages[|messages| - 1].kind.Int? then [|messages| - 1] else []
  }

  /** The filter keeps every internal message, once, in order, and no other. */
  lemma {:induction false} InternalExact(messages: seq<Message>)
    ensures |InternalPlaces(messages)| == |Internal(messages)|
    ensures forall k :: 0 <= k < |Internal(messages)| ==>
      InternalPlaces(messages)[k] < |messages| && Internal(messages)[k] == messages[InternalPlaces(messages)[k]]
  {
    if messages != [] { InternalExact(messages[..|messages| - 1]); }
  }

  /** The message at `i` is the first internal one. */
  ghost predicate IsFirstInternal(messages: seq<Message>, i: nat) {
    i < |messages| && messages[i].kind.Int? && forall k :: 0 <= k < i ==> !messages[k].kind.Int?
  }

  lemma FirstInternal(messages: seq<Message>)
    ensures Internal(messages) == [] <==> forall i :: 0 <= i < |messages| ==> !messages[i].kind.Int?
    ensures forall i: nat :: IsFirstInternal(messages, i) ==> Internal(messages) != [] && Internal(messages)[0] == messages[i]
  {
    InternalExact(messages);
    var places := InternalPlaces(messages);
    if Internal(messages) != [] { assert places[0] in places; }
    if i :| 0 <= i < |messages| && messages[i].kind.Int? { assert i in places; }
    forall i: nat | IsFirstInternal(messages, i) ensures Internal(messages) != [] && Internal(messages)[0] == messages[i] {
      assert i in places && places[0] in places;
      var k :| 0 <= k < |places| && places[k] == i;
      assert messages[places[0]].kind.Int?;
      assert !(places[0] < i) && k == 0;
    }
  }

  function Party(address: Option<string>): string {
    OrElse(address, "")
  }

  /** The first event also bears the transaction's own fees. */
  function EventFee(tx: Transaction, i: nat, m: Message): nat {
    m.fwdFee + if i == 0 then tx.totalFees else 0
  }

  predicate EventFits(tx: Transaction, i: nat, m: Message) {
    MovementsFit(m) && m.hash.Some? && EventFee(tx, i, m) <= NATIVE_MAX_UNITS
  }

  function OutgoingEvent(tx: Transaction, extHash: Bytes32, i: nat, m: Message): ActivityEvent
    requires tx.hash.Some? && EventFits(tx, i, m)
  {
    ActivityEvent(false, tx.lt, tx.now, tx.hash.value, Party(m.dst), MovementList(m), EventFee(tx, i, m), Succeeded(tx),
                  m.bounced, tx.exitCode, Some(extHash), m.hash)
  }

  function NoTransfer(tx: Transaction, extHash: Bytes32): ActivityEvent
    requires tx.hash.Some?
  {
    ActivityEvent(false, tx.lt, tx.now, tx.hash.value, "", [ZeroAmount(Native)], tx.totalFees, false, false, tx.exitCode,
                  Some(extHash), None)
  }

  function IncomingEvent(tx: Transaction): ActivityEvent
    requires tx.inMsg.Some? && tx.hash.Some? && MovementsFit(tx.inMsg.value)
  {
    var m := tx.inMsg.value;
    ActivityEvent(true, tx.lt, tx.now, tx.hash.value, Party(m.src), MovementList(m), tx.totalFees,
                  !m.bounced && !Returned(tx), m.bounced, tx.exitCode, None, m.hash)
  }

  predicate OutgoingFits(tx: Transaction, internal: seq<Message>) {
    forall i :: 0 <= i < |internal| ==> EventFits(tx, i, internal[i])
  }

  predicate ActivityFits(tx: Transaction) {
    tx.inMsg.Some? && !tx.inMsg.value.kind.ExtOut? ==>
      && tx.inMsg.value.hash.Some? && tx.hash.Some?
      && if tx.inMsg.value.kind.Int? then
           MovementsFit(tx.inMsg.value) && tx.totalFees <= NATIVE_MAX_UNITS
         else if Internal(tx.outMsgs) == [] then tx.totalFees <= NATIVE_MAX_UNITS
         else OutgoingFits(tx, Internal(tx.outMsgs))
  }

  function OutgoingEvents(tx: Transaction, extHash: Bytes32, internal: seq<Message>): (events: seq<ActivityEvent>)
    requires tx.hash.Some? && OutgoingFits(tx, internal)
    ensures |events| == |internal|
  {
    seq(|internal|, i requires 0 <= i < |internal| => OutgoingEvent(tx, extHash, i, internal[i]))
  }

  function Activity(tx: Transaction): seq<ActivityEvent>
    requires ActivityFits(tx)
  {
    if tx.inMsg.None? || tx.inMsg.value.kind.ExtOut? then []
    else if tx.inMsg.value.kind.Int? then [IncomingEvent(tx)]
    else if Internal(tx.outMsgs) == [] then [NoTransfer(tx, tx.inMsg.value.hash.value)]
    else OutgoingEvents(tx, tx.inMsg.value.hash.value, Internal(tx.outMsgs))
  }

  /** The parts an event takes from the transaction whatever its direction. */
  predicate Dated(tx: Transaction, e: ActivityEvent) {
    Some(e.txHash) == tx.hash && e.lt == tx.lt && e.timeUnix == tx.now && e.exitCode == tx.exitCode
  }

  /** A received message: incoming, from its sender, bearing its hash and no external one. */
  ghost predicate IsReceipt(tx: Transaction, m: Message, e: ActivityEvent) {
    && Dated(tx, e) && e.incoming && e.counterparty == (if m.src.Some? then m.src.value else "")
    && e.intMsgHash == m.hash && e.extMsgHash == None && e.bounced == m.bounced && Carries(m, e.movements)
    && e.feeNative == tx.totalFees
    && (e.success <==> !m.bounced && !(tx.bounce == Some(Bounced) && m.valueExtra == []))
  }

  /** A sent message: outgoing, to its destination, bearing its hash and the external message's. */
  ghost predicate IsSending(tx: Transaction, trigger: Message, m: Message, e: ActivityEvent) {
    && Dated(tx, e) && !e.incoming && e.counterparty == (if m.dst.Some? then m.dst.value else "")
    && e.intMsgHash == m.hash && e.extMsgHash == trigger.hash && e.bounced == m.bounced && Carries(m, e.movements)
    && (e.success <==> FailureReason(tx).None?)
  }

  /** Nothing sent: the attempt is kept as a failed event that moves nothing. */
  predicate IsNoTransfer(tx: Transaction, trigger: Message, e: ActivityEvent) {
    && Dated(tx, e) && !e.incoming && e.counterparty == "" && e.movements == [TaggedUnits(Native, 0)]
    && e.intMsgHash == None && e.extMsgHash == trigger.hash && !e.success && !e.bounced && e.feeNative == tx.totalFees
  }

  /** What an accepted transaction's activity is, by the message that triggered it. */
  ghost predicate TellsActivity(tx: Transaction, events: seq<ActivityEvent>) {
    if tx.inMsg.None? || tx.inMsg.value.kind.ExtOut? then events == []
    else if tx.inMsg.value.kind.Int? then |events| == 1 && IsReceipt(tx, tx.inMsg.value, events[0])
    else
      var internal := Internal(tx.outMsgs);
      if internal == [] then |events| == 1 && IsNoTransfer(tx, tx.inMsg.value, events[0])
      else
        && |events| == |internal|
        && (forall i :: 0 <= i < |events| ==> IsSending(tx, tx.inMsg.value, internal[i], events[i]))
        && events[0].feeNative == tx.totalFees + internal[0].fwdFee
        && forall i :: 0 < i < |events| ==> events[i].feeNative == internal[i].fwdFee
  }

  lemma ActivityTells(tx: Transaction)
    requires ActivityFits(tx)
    ensures TellsActivity(tx, Activity(tx))
  {
    if tx.inMsg.Some? && tx.inMsg.value.kind.Int? {
      MovementListCarries(tx.inMsg.value);
    } else if tx.inMsg.Some? && tx.inMsg.value.kind.ExtIn? {
      var internal := Internal(tx.outMsgs);
      forall i | 0 <= i < |internal| ensures IsSending(tx, tx.inMsg.value, internal[i], Activity(tx)[i]) {
        assert EventFits(tx, i, internal[i]);
        MovementListCarries(internal[i]);
      }
    }
  }

  /** The loop over the internal messages of an externally triggered transaction. */
  method CollectOutgoing(tx: Transaction, extHash: Bytes32, internal: seq<Message>)
    returns (r: Result<seq<ActivityEvent>, ViewError>)
    requires tx.hash.Some?
    ensures r.Ok? <==> OutgoingFits(tx, internal)
    ensures r.Ok? ==> r.value == OutgoingEvents(tx, extHash, internal)
  {
    var events: seq<ActivityEvent> := [];
    for i := 0 to |internal|
      invariant |events| == i && forall k :: 0 <= k < i ==> EventFits(tx, k, internal[k])
      invariant forall k :: 0 <= k < i ==> events[k] == OutgoingEvent(tx, extHash, k, internal[k])
    {
      var m := internal[i];
      var movements := MessageMovements(m);
      if movements.Err? { return Err(movements.error); }
      var fee: nat := m.fwdFee;
      if i == 0 {
        if tx.totalFees + m.fwdFee > U128_MAX { return Err(FeeOverflow); }
        fee := tx.totalFees + m.fwdFee;
      }
      if fee > NATIVE_MAX_UNITS { return Err(OutOfDomain); }
      if m.hash.None? { return Err(BadHash); }
      events := events + [ActivityEvent(false, tx.lt, tx.now, tx.hash.value, Party(m.dst), movements.value, fee,
                                        Succeeded(tx), m.bounced, tx.exitCode, Some(extHash), m.hash)];
    }
    return Ok(events);
  }

  /** `activity_from_chain_tx` */
  method ActivityFromChainTx(tx: Transaction) returns (r: Result<seq<ActivityEvent>, ViewError>)
    ensures r.Ok? <==> ActivityFits(tx)
    ensures r.Ok? ==> r.value == Activity(tx) && TellsActivity(tx, r.value)
  {
    if ActivityFits(tx) { ActivityTells(tx); }
    if tx.inMsg.None? { return Ok([]); }
    var m := tx.inMsg.value;
    match m.kind
    case ExtOut => return Ok([]);
    case ExtIn =>
      if m.hash.None? { return Err(BadHash); }
      var internal := Internal(tx.outMsgs);
      if internal == [] {
        if tx.totalFees > NATIVE_MAX_UNITS { return Err(OutOfDomain); }
        if tx.hash.None? { return Err(BadHash); }
        return Ok([NoTransfer(tx, m.hash.value)]);
      }
      if tx.hash.None? { return Err(BadHash); }
      r := CollectOutgoing(tx, m.hash.value, internal);
    case Int =>
      var movements := MessageMovements(m);
      if movements.Err? { return Err(movements.error); }
      if tx.totalFees > NATIVE_MAX_UNITS { return Err(OutOfDomain); }
      if tx.hash.None? || m.hash.None? { return Err(BadHash); }
      return Ok([IncomingEvent(tx)]);
  }

  // ----- the explorer row -----

  datatype RowKind = In | Out | Fwd | Ext | Special

  datatype AccountTx = AccountTx(
    hash: Bytes32,
    lt: U64,
    timeUnix: U64,
    kind: RowKind,
    counterparty: string,
    extraParties: nat,
    movements: seq<AssetAmount>,
    received: seq<AssetAmount>,
    feeNative: nat,
    intOutMsgs: nat,
    extOutMsgs: nat,
    success: bool,
    bounced: bool,
    exitCode: I32)

  function ForwardFees(messages: seq<Message>): nat {
    if messages == [] then 0 else ForwardFees(messages[..|messages| - 1]) + messages[|messages| - 1].fwdFee
  }

  function KindOf(tx: Transaction): RowKind {
    if tx.inMsg.None? || tx.inMsg.value.kind.ExtOut? then Special
    else if tx.inMsg.value.kind.Int? then (if Internal(tx.outMsgs) == [] then In else Fwd)
    else if Internal(tx.outMsgs) == [] then Ext else Out
  }

  ghost predicate RowFits(tx: Transaction) {
    && tx.hash.Some? && tx.totalFees + ForwardFees(Internal(tx.outMsgs)) <= U128_MAX
    && (KindOf(tx) in {In, Fwd} ==> MovementsFit(tx.inMsg.value))
    && (KindOf(tx) in {Fwd, Out} ==> SumFits(Internal(tx.outMsgs)))
  }

  /** What the row shows as moved: the totals sent, or what arrived when nothing was sent on. */
  ghost function Shown(tx: Transaction): seq<AssetAmount>
    requires RowFits(tx)
  {
    AddLinesExact(AllLines(if KindOf(tx) in {Fwd, Out} then Internal(tx.outMsgs) else []));
    match KindOf(tx)
    case In => MovementList(tx.inMsg.value)
    case Fwd => AddLines(AllLines(Internal(tx.outMsgs))).value
    case Out => AddLines(AllLines(Internal(tx.outMsgs))).value
    case Ext => []
    case Special => []
  }

  ghost predicate IsRow(tx: Transaction, row: AccountTx)
    requires RowFits(tx)
  {
    var internal := Internal(tx.outMsgs);
    && row.hash == tx.hash.value && row.lt == tx.lt && row.timeUnix == tx.now && row.kind == KindOf(tx)
    && row.counterparty == (match KindOf(tx)
                            case In => Party(tx.inMsg.value.src)
                            case Fwd => Party(internal[0].dst)
                            case Out => Party(internal[0].dst)
                            case _ => "")
    && row.extraParties == (if internal == [] then 0 else |internal| - 1)
    && row.movements == Shown(tx)
    && row.received == (if KindOf(tx).Fwd? then MovementList(tx.inMsg.value) else [])
    && row.feeNative == tx.totalFees + ForwardFees(internal)
    && row.intOutMsgs == |internal| && row.extOutMsgs == |tx.outMsgs| - |internal|
    && row.success == Succeeded(tx)
    && row.bounced == (KindOf(tx) in {In, Fwd} && tx.inMsg.value.bounced)
    && row.exitCode == tx.exitCode
  }

  lemma {:induction false} InternalAreFewer(messages: seq<Message>)
    ensures |Internal(messages)| <= |messages|
  {
    if messages != [] { InternalAreFewer(messages[..|messages| - 1]); }
  }

  /** The loop that adds up the row's fee. */
  method AddUpFees(start: U128, messages: seq<Message>) returns (r: Result<U128, ViewError>)
    ensures r.Ok? <==> start + ForwardFees(messages) <= U128_MAX
    ensures r.Ok? ==> r.value == start + ForwardFees(messages)
  {
    var fee: U128 := start;
    for i := 0 to |messages|
      invariant fee == start + ForwardFees(messages[..i])
    {
      assert messages[..i + 1][..i] == messages[..i];
      if fee + messages[i].fwdFee > U128_MAX {
        ForwardFeesGrow(messages, i + 1);
        return Err(FeeOverflow);
      }
      fee := fee + messages[i].fwdFee;
    }
    assert messages[..|messages|] == messages;
    return Ok(fee);
  }

  lemma {:induction false} ForwardFeesGrow(messages: seq<Message>, i: nat)
    requires i <= |messages|
    ensures ForwardFees(messages[..i]) <= ForwardFees(messages)
  {
    if i < |messages| {
      var shorter := messages[..|messages| - 1];
      ForwardFeesGrow(shorter, i);
      assert shorter[..i] == messages[..i];
    } else {
      assert messages[..i] == messages;
    }
  }

  /** The row's two movement lists. */
  method RowMovements(tx: Transaction, kind: RowKind, internal: seq<Message>)
    returns (r: Result<(seq<AssetAmount>, seq<AssetAmount>), ViewError>)
    requires kind == In || kind == Fwd ==> tx.inMsg.Some?
    ensures r.Ok? <==> (kind == In || kind == Fwd ==> MovementsFit(tx.inMsg.value)) && (kind == Fwd || kind == Out ==> SumFits(internal))
    ensures r.Ok? ==> r.value.1 == if kind == Fwd then MovementList(tx.inMsg.value) else []
    ensures r.Ok? && (kind == Fwd || kind == Out) ==> Ok(r.value.0) == AddLines(AllLines(internal))
    ensures r.Ok? && kind == In ==> r.value.0 == MovementList(tx.inMsg.value)
    ensures r.Ok? && (kind == Ext || kind == Special) ==> r.value.0 == []
  {
    var sums: seq<AssetAmount> := [];
    if kind == Fwd || kind == Out {
      var totals := SumMovements(internal);
      if totals.Err? { return Err(totals.error); }
      sums := totals.value;
    }
    if kind == In || kind == Fwd {
      var lines := MessageMovements(tx.inMsg.value);
      if lines.Err? { return Err(lines.error); }
      if kind == In { return Ok((lines.value, [])); }
      return Ok((sums, lines.value));
    }
    return Ok((sums, []));
  }

  /** No internal message leaves. */
  ghost predicate KeepsAll(tx: Transaction) {
    forall i :: 0 <= i < |tx.outMsgs| ==> !tx.outMsgs[i].kind.Int?
  }

  /** Kind and counterparty, by the message that triggered the transaction and the ones that left. */
  ghost predicate TellsRow(tx: Transaction, row: AccountTx) {
    && (row.kind.Special? <==> tx.inMsg.None? || tx.inMsg.value.kind.ExtOut?)
    && (row.kind.In? <==> tx.inMsg.Some? && tx.inMsg.value.kind.Int? && KeepsAll(tx))
    && (row.kind.Fwd? <==> tx.inMsg.Some? && tx.inMsg.value.kind.Int? && !KeepsAll(tx))
    && (row.kind.Ext? <==> tx.inMsg.Some? && tx.inMsg.value.kind.ExtIn? && KeepsAll(tx))
    && (row.kind.Out? <==> tx.inMsg.Some? && tx.inMsg.value.kind.ExtIn? && !KeepsAll(tx))
    && (row.kind.In? ==> row.counterparty == (if tx.inMsg.value.src.Some? then tx.inMsg.value.src.value else ""))
    && (row.kind.Fwd? || row.kind.Out? ==> forall i: nat :: IsFirstInternal(tx.outMsgs, i) ==>
          row.counterparty == (if tx.outMsgs[i].dst.Some? then tx.outMsgs[i].dst.value else ""))
    && (row.kind.Ext? || row.kind.Special? ==> row.counterparty == "" && row.movements == [])
    && (row.kind.In? ==> Carries(tx.inMsg.value, row.movements) && row.received == [])
    && (row.kind.Fwd? ==> Carries(tx.inMsg.value, row.received))
  }

  lemma RowTells(tx: Transaction, row: AccountTx)
    requires RowFits(tx) && IsRow(tx, row)
    ensures TellsRow(tx, row)
  {
    FirstInternal(tx.outMsgs);
    if KindOf(tx) in {In, Fwd} { MovementListCarries(tx.inMsg.value); }
  }

  /** `account_tx_from_chain_tx` */
  method AccountTxFromChainTx(tx: Transaction) returns (r: Result<AccountTx, ViewError>)
    ensures r.Ok? <==> RowFits(tx)
    ensures r.Ok? ==> IsRow(tx, r.value) && TellsRow(tx, r.value)
  {
    if tx.hash.None? { return Err(BadHash); }
    var internal := Internal(tx.outMsgs);
    InternalAreFewer(tx.outMsgs);
    var fee := AddUpFees(tx.totalFees, internal);
    if fee.Err? { return Err(fee.error); }
    var kind := KindOf(tx);
    var lists := RowMovements(tx, kind, internal);
    if lists.Err? { return Err(lists.error); }
    var counterparty :=
      match kind
      case In => Party(tx.inMsg.value.src)
      case Fwd => Party(internal[0].dst)
      case Out => Party(internal[0].dst)
      case _ => "";
    var row := AccountTx(tx.hash.value, tx.lt, tx.now, kind, counterparty, if internal == [] then 0 else |internal| - 1,
                         lists.value.0, lists.value.1, fee.value, |internal|, |tx.outMsgs| - |internal|, Succeeded(tx),
                         (kind == In || kind == Fwd) && tx.inMsg.value.bounced, tx.exitCode);
    RowTells(tx, row);
    return Ok(row);
  }

  // ----- the two views agree -----

  function EventFees(events: seq<ActivityEvent>): nat {
    if events == [] then 0 else EventFees(events[..|events| - 1]) + events[|events| - 1].feeNative
  }

  function EventUnits(events: seq<ActivityEvent>, asset: AssetId): nat {
    if events == [] then 0
    else EventUnits(events[..|events| - 1], asset) + Units(events[|events| - 1].movements, asset)
  }

  lemma OutgoingPrefix(tx: Transaction, extHash: Bytes32, internal: seq<Message>, n: nat)
    requires tx.hash.Some? && OutgoingFits(tx, internal) && n <= |internal|
    ensures OutgoingFits(tx, internal[..n])
    ensures OutgoingEvents(tx, extHash, internal)[..n] == OutgoingEvents(tx, extHash, internal[..n])
  {
    assert forall i :: 0 <= i < n ==> EventFits(tx, i, internal[i]);
  }

  lemma {:induction false} OutgoingFees(tx: Transaction, extHash: Bytes32, internal: seq<Message>)
    requires tx.hash.Some? && OutgoingFits(tx, internal)
    ensures EventFees(OutgoingEvents(tx, extHash, internal)) == ForwardFees(internal) + if internal == [] then 0 else tx.totalFees
  {
    if internal != [] {
      var n := |internal| - 1;
      OutgoingPrefix(tx, extHash, internal, n);
      OutgoingFees(tx, extHash, internal[..n]);
      assert n == 0 ==> internal[..n] == [];
    }
  }

  lemma {:induction false} OutgoingUnits(tx: Transaction, extHash: Bytes32, internal: seq<Message>, asset: AssetId)
    requires tx.hash.Some? && OutgoingFits(tx, internal) && AllMovementsFit(internal)
    ensures EventUnits(OutgoingEvents(tx, extHash, internal), asset) == Units(AllLines(internal), asset)
  {
    if internal != [] {
      var n := |internal| - 1;
      OutgoingPrefix(tx, extHash, internal, n);
      OutgoingUnits(tx, extHash, internal[..n], asset);
      UnitsConcat(AllLines(internal[..n]), MovementList(internal[n]), asset);
    }
  }

  lemma NoTransferMovesNothing(tx: Transaction, extHash: Bytes32, asset: AssetId)
    requires tx.hash.Some?
    ensures EventFees([NoTransfer(tx, extHash)]) == tx.totalFees
    ensures EventUnits([NoTransfer(tx, extHash)], asset) == 0
  {
    assert [NoTransfer(tx, extHash)][..0] == [];
    UnitsSnoc([], ZeroAmount(Native), asset);
    assert [] + [ZeroAmount(Native)] == [ZeroAmount(Native)];
  }

  /** For an externally triggered transaction both views accept: the activity fees sum to the row's
      fee, and the movements of every asset sum to the row's total. */
  lemma TwoViewsAgree(tx: Transaction, row: AccountTx, asset: AssetId)
    requires tx.inMsg.Some? && tx.inMsg.value.kind.ExtIn?
    requires ActivityFits(tx) && RowFits(tx) && IsRow(tx, row)
    ensures EventFees(Activity(tx)) == row.feeNative
    ensures EventUnits(Activity(tx), asset) == Units(row.movements, asset)
  {
    var internal, extHash := Internal(tx.outMsgs), tx.inMsg.value.hash.value;
    if internal != [] {
      OutgoingFees(tx, extHash, internal);
      OutgoingUnits(tx, extHash, internal, asset);
      AddLinesExact(AllLines(internal));
    } else {
      NoTransferMovesNothing(tx, extHash, asset);
    }
  }

  /** The success flags agree exactly when an internal message leaves or the transaction failed. */
  lemma SuccessFlagsAgree(tx: Transaction, row: AccountTx)
    requires tx.inMsg.Some? && tx.inMsg.value.kind.ExtIn?
    requires ActivityFits(tx) && RowFits(tx) && IsRow(tx, row)
    ensures (forall i :: 0 <= i < |Activity(tx)| ==> Activity(tx)[i].success == row.success)
      <==> Internal(tx.outMsgs) != [] || FailureReason(tx).Some?
  {
    if Internal(tx.outMsgs) == [] {
      assert Activity(tx)[0] == NoTransfer(tx, tx.inMsg.value.hash.value);
    }
  }

  /** For an internal message received: what arrived agrees, the fees agree exactly when nothing was
      paid to send on, and the success flags exactly when bouncing and failing coincide or the value
      was returned. */
  lemma InboundViews(tx: Transaction, row: AccountTx)
    requires tx.inMsg.Some? && tx.inMsg.value.kind.Int?
    requires ActivityFits(tx) && RowFits(tx) && IsRow(tx, row)
    ensures |Activity(tx)| == 1
    ensures Activity(tx)[0].movements == if row.kind.In? then row.movements else row.received
    ensures Activity(tx)[0].feeNative == row.feeNative <==> ForwardFees(Internal(tx.outMsgs)) == 0
    ensures Activity(tx)[0].success == row.success <==>
      (FailureReason(tx).None? <==> !tx.inMsg.value.bounced) || Returned(tx)
  {}
}
