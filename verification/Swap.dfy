/** The constant-product quote (crates/cc-wallet-domain/src/swap.rs): 128-bit checked arithmetic
    with every floor division, and what it means for the pool and for splitting a trade. */
module Swap {
  import opened Wrappers
  import opened Bytes
  import opened Amounts
  import opened Arith

  const FEE_DENOM := 10_000

  function CheckedMul(a: nat, b: nat): Option<U128> {
    if a * b <= U128_MAX then Some(a * b) else None
  }

  function CheckedSum(a: nat, b: nat): Option<U128> {
    if a + b <= U128_MAX then Some(a + b) else None
  }

  /** The input that counts once the fee is taken. */
  function AfterFee(dx: nat, feeBps: nat): nat
    requires feeBps < FEE_DENOM
  {
    dx * (FEE_DENOM - feeBps) / FEE_DENOM
  }

  function ExpectedOut(reserveIn: U128, reserveOut: U128, dx: U128, feeBps: U16): Option<U128> {
    if feeBps >= FEE_DENOM then None
    else if reserveIn == 0 then Some(0)
    else
      var scaled := CheckedMul(dx, FEE_DENOM - feeBps);
      if scaled.None? then None
      else
        var dxFee: U128 := scaled.value / FEE_DENOM;
        if dxFee == 0 then Some(0)
        else
          var numerator := CheckedMul(reserveOut, dxFee);
          var denominator := CheckedSum(reserveIn, dxFee);
          if numerator.None? || denominator.None? then None
          else Some(numerator.value / denominator.value)
  }

  // ----- division facts -----

  /** `q` is `n` divided by `d`, rounded down. */
  predicate IsFloor(q: nat, n: nat, d: nat) {
    q * d <= n < (q + 1) * d
  }

  lemma DivIsFloor(n: nat, d: nat)
    requires d > 0
    ensures IsFloor(n / d, n, d)
  {
    assert n == n / d * d + n % d;
    MulDistributes(n / d, 1, d);
  }

  lemma FloorIsLargest(q: nat, n: nat, d: nat, o: nat)
    requires d > 0 && IsFloor(q, n, d) && o * d <= n
    ensures o <= q
  {
    if o > q { MulMonotone(q + 1, o, d); }
  }

  /** What a successful quote is: the floor of the constant-product formula. */
  lemma QuoteIsFloor(x: U128, y: U128, dx: U128, feeBps: U16)
    requires ExpectedOut(x, y, dx, feeBps).Some? && x > 0
    ensures feeBps < FEE_DENOM
    ensures IsFloor(ExpectedOut(x, y, dx, feeBps).value, y * AfterFee(dx, feeBps), x + AfterFee(dx, feeBps))
  {
    var d := AfterFee(dx, feeBps);
    DivIsFloor(y * d, x + d);
    if d == 0 { assert y * d == 0; }
  }

  /** The quote is the largest output that keeps the product of the reserves, counting only the
      input after the fee. */
  lemma QuoteIsLargest(x: U128, y: U128, dx: U128, feeBps: U16, o: nat)
    requires ExpectedOut(x, y, dx, feeBps).Some? && x > 0 && o <= y
    ensures ExpectedOut(x, y, dx, feeBps).value <= y
    ensures feeBps < FEE_DENOM
    ensures o <= ExpectedOut(x, y, dx, feeBps).value <==> (x + AfterFee(dx, feeBps)) * (y - o) >= x * y
  {
    QuoteIsFloor(x, y, dx, feeBps);
    var d, q := AfterFee(dx, feeBps), ExpectedOut(x, y, dx, feeBps).value;
    assert y * d <= y * (x + d) by { MulMonotone(d, x + d, y); }
    if q > y { MulMonotone(y + 1, q, x + d); MulDistributes(y, 1, x + d); }
    ProductForm(x, y, d, o);
    if o <= q { MulMonotone(o, q, x + d); } else { FloorOver(q, y * d, x + d, o); }
  }

  lemma FloorOver(q: nat, n: nat, d: nat, o: nat)
    requires d > 0 && IsFloor(q, n, d) && o > q
    ensures o * d > n
  {
    MulMonotone(q + 1, o, d);
  }

  lemma ProductForm(x: nat, y: nat, d: nat, o: nat)
    requires o <= y
    ensures (x + d) * (y - o) >= x * y <==> o * (x + d) <= y * d
  {
    assert (x + d) * (y - o) == x * y + d * y - (x + d) * o;
    assert d * y == y * d && (x + d) * o == o * (x + d);
  }

  lemma AfterFeeAtMost(dx: nat, feeBps: nat)
    requires feeBps < FEE_DENOM
    ensures AfterFee(dx, feeBps) <= dx
  {
    MulMonotone(FEE_DENOM - feeBps, FEE_DENOM, dx);
    assert dx * FEE_DENOM / FEE_DENOM == dx;
  }

  // ----- the pool after a swap -----

  datatype Pool = Pool(reserveIn: U128, reserveOut: U128)

  datatype Outcome = Outcome(pool: Pool, paid: nat)

  /** The whole input enters the pool, the quote leaves it. */
  function SwapOnce(pool: Pool, dx: U128, feeBps: U16): Option<Outcome> {
    var out := ExpectedOut(pool.reserveIn, pool.reserveOut, dx, feeBps);
    if out.None? || pool.reserveIn + dx > U128_MAX then None
    else
      QuoteWithinReserve(pool, dx, feeBps);
      Some(Outcome(Pool(pool.reserveIn + dx, pool.reserveOut - out.value), out.value))
  }

  lemma QuoteWithinReserve(pool: Pool, dx: U128, feeBps: U16)
    requires ExpectedOut(pool.reserveIn, pool.reserveOut, dx, feeBps).Some?
    ensures ExpectedOut(pool.reserveIn, pool.reserveOut, dx, feeBps).value <= pool.reserveOut
  {
    if pool.reserveIn > 0 { QuoteIsLargest(pool.reserveIn, pool.reserveOut, dx, feeBps, 0); }
  }

  /** No swap lowers the product of the reserves. */
  lemma ProductNeverDecreases(pool: Pool, dx: U128, feeBps: U16)
    requires SwapOnce(pool, dx, feeBps).Some?
    ensures var after := SwapOnce(pool, dx, feeBps).value.pool;
      after.reserveIn * after.reserveOut >= pool.reserveIn * pool.reserveOut
  {
    var x, y := pool.reserveIn, pool.reserveOut;
    var after := SwapOnce(pool, dx, feeBps).value.pool;
    if x > 0 {
      QuoteIsLargest(x, y, dx, feeBps, ExpectedOut(x, y, dx, feeBps).value);
      AfterFeeAtMost(dx, feeBps);
      MulMonotone(x + AfterFee(dx, feeBps), after.reserveIn, after.reserveOut);
    }
  }

  // ----- splitting a trade -----

  /** One swap after the other, each against the reserves the previous one left. */
  function SwapAll(pool: Pool, dxs: seq<U128>, feeBps: U16): Option<Outcome>
    decreases |dxs|
  {
    if dxs == [] then Some(Outcome(pool, 0))
    else
      var first := SwapOnce(pool, dxs[0], feeBps);
      if first.None? then None
      else
        var rest := SwapAll(first.value.pool, dxs[1..], feeBps);
        if rest.None? then None else Some(Outcome(rest.value.pool, first.value.paid + rest.value.paid))
  }

  function Sum(dxs: seq<U128>): nat {
    if dxs == [] then 0 else dxs[0] + Sum(dxs[1..])
  }

  function FeeSum(dxs: seq<U128>, feeBps: nat): nat
    requires feeBps < FEE_DENOM
  {
    if dxs == [] then 0 else AfterFee(dxs[0], feeBps) + FeeSum(dxs[1..], feeBps)
  }

  /** Rounding the fee piece by piece never counts more than rounding it once. */
  lemma {:induction false} FeeSumAtMost(dxs: seq<U128>, feeBps: nat)
    requires feeBps < FEE_DENOM
    ensures FeeSum(dxs, feeBps) <= AfterFee(Sum(dxs), feeBps)
  {
    if dxs != [] {
      FeeSumAtMost(dxs[1..], feeBps);
      FloorsAdd(dxs[0], Sum(dxs[1..]), FEE_DENOM - feeBps);
    }
  }

  lemma FloorsAdd(a: nat, b: nat, k: nat)
    ensures a * k / FEE_DENOM + b * k / FEE_DENOM <= (a + b) * k / FEE_DENOM
  {
    MulDistributes(a, b, k);
  }

  /** What is paid leaves the reserve. */
  lemma {:induction false} PaidLeavesReserve(pool: Pool, dxs: seq<U128>, feeBps: U16)
    requires SwapAll(pool, dxs, feeBps).Some?
    ensures SwapAll(pool, dxs, feeBps).value.pool.reserveOut + SwapAll(pool, dxs, feeBps).value.paid == pool.reserveOut
    decreases |dxs|
  {
    if dxs != [] {
      PaidLeavesReserve(SwapOnce(pool, dxs[0], feeBps).value.pool, dxs[1..], feeBps);
    }
  }

  /** The reserve never falls below the curve through the starting point at the input counted so far. */
  lemma {:induction false} CurveBound(pool: Pool, dxs: seq<U128>, feeBps: U16, counted: nat, k: nat)
    requires feeBps < FEE_DENOM && SwapAll(pool, dxs, feeBps).Some?
    requires 0 < counted <= pool.reserveIn && Above(pool.reserveOut, counted, k)
    ensures Above(SwapAll(pool, dxs, feeBps).value.pool.reserveOut, counted + FeeSum(dxs, feeBps), k)
    decreases |dxs|
  {
    if dxs != [] {
      var first := SwapOnce(pool, dxs[0], feeBps).value;
      CurveStep(pool, dxs[0], feeBps, counted);
      AfterFeeAtMost(dxs[0], feeBps);
      CurveBound(first.pool, dxs[1..], feeBps, counted + AfterFee(dxs[0], feeBps), k);
    }
  }

  /** A product, as repeated addition. */
  function Times(a: nat, b: nat): nat {
    if b == 0 then 0 else Times(a, b - 1) + a
  }

  lemma {:induction false} TimesIsProduct(a: nat, b: nat)
    ensures Times(a, b) == a * b
  {
    if b > 0 {
      TimesIsProduct(a, b - 1);
      MulDistributes(b - 1, 1, a);
    }
  }

  predicate Above(y: nat, x: nat, k: nat) {
    Times(y, x) >= k
  }

  lemma CurveStep(pool: Pool, dx: U128, feeBps: U16, counted: nat)
    requires feeBps < FEE_DENOM && SwapOnce(pool, dx, feeBps).Some? && 0 < counted <= pool.reserveIn
    ensures Above(SwapOnce(pool, dx, feeBps).value.pool.reserveOut, counted + AfterFee(dx, feeBps), Times(pool.reserveOut, counted))
  {
    TimesIsProduct(SwapOnce(pool, dx, feeBps).value.pool.reserveOut, counted + AfterFee(dx, feeBps));
    TimesIsProduct(pool.reserveOut, counted);
    QuoteIsFloor(pool.reserveIn, pool.reserveOut, dx, feeBps);
    CurveArithmetic(pool.reserveIn, pool.reserveOut, AfterFee(dx, feeBps), SwapOnce(pool, dx, feeBps).value.paid, counted);
  }

  lemma CurveArithmetic(x: nat, y: nat, d: nat, q: nat, counted: nat)
    requires q <= y && counted <= x && q * (x + d) <= y * d
    ensures (y - q) * (counted + d) >= y * counted
  {
    MulMonotone(counted + d, x + d, q);
    ProductForm(counted, y, d, q);
  }

  lemma FloorMonotone(x: nat, y: nat, s: nat, d: nat, o: nat)
    requires s <= d && o <= y && o * (x + s) <= y * s
    ensures o * (x + d) <= y * d
  {
    MulMonotone(o, y, d - s);
    MulDistributes(x + s, d - s, o);
    MulDistributes(s, d - s, y);
  }

  /** Splitting gains nothing: with a positive input reserve, any number of swaps one after the other
      pay at most what one swap of the whole input pays. */
  lemma SplittingGainsNothing(pool: Pool, dxs: seq<U128>, feeBps: U16)
    requires pool.reserveIn > 0 && Sum(dxs) <= U128_MAX
    requires SwapAll(pool, dxs, feeBps).Some?
    requires ExpectedOut(pool.reserveIn, pool.reserveOut, Sum(dxs), feeBps).Some?
    ensures SwapAll(pool, dxs, feeBps).value.paid <= ExpectedOut(pool.reserveIn, pool.reserveOut, Sum(dxs), feeBps).value
  {
    QuoteIsFloor(pool.reserveIn, pool.reserveOut, Sum(dxs), feeBps);
    SplitStaysAbove(pool, dxs, feeBps);
    PaidLeavesReserve(pool, dxs, feeBps);
    FeeSumAtMost(dxs, feeBps);
    var end := SwapAll(pool, dxs, feeBps).value;
    SplitArithmetic(pool.reserveIn, pool.reserveOut, FeeSum(dxs, feeBps), AfterFee(Sum(dxs), feeBps), end.paid,
                    ExpectedOut(pool.reserveIn, pool.reserveOut, Sum(dxs), feeBps).value, end.pool.reserveOut);
  }

  lemma SplitStaysAbove(pool: Pool, dxs: seq<U128>, feeBps: U16)
    requires pool.reserveIn > 0 && feeBps < FEE_DENOM && SwapAll(pool, dxs, feeBps).Some?
    ensures OnCurve(SwapAll(pool, dxs, feeBps).value.pool.reserveOut, pool.reserveIn + FeeSum(dxs, feeBps), pool.reserveIn, pool.reserveOut)
  {
    CurveBound(pool, dxs, feeBps, pool.reserveIn, Times(pool.reserveOut, pool.reserveIn));
  }

  predicate OnCurve(rest: nat, counted: nat, x: nat, y: nat) {
    Above(rest, counted, Times(y, x))
  }

  lemma SplitArithmetic(x: nat, y: nat, s: nat, d: nat, paid: nat, q: nat, rest: nat)
    requires x > 0 && s <= d && rest + paid == y && OnCurve(rest, x + s, x, y) && IsFloor(q, y * d, x + d)
    ensures paid <= q
  {
    PaidBound(x, y, s, paid, rest);
    FloorMonotone(x, y, s, d, paid);
    FloorIsLargest(q, y * d, x + d, paid);
  }

  lemma PaidBound(x: nat, y: nat, s: nat, paid: nat, rest: nat)
    requires rest + paid == y && OnCurve(rest, x + s, x, y)
    ensures paid * (x + s) <= y * s
  {
    TimesIsProduct(rest, x + s);
    TimesIsProduct(y, x);
    MulDistributes(rest, paid, x + s);
    MulDistributes(x, s, y);
  }

  /** With an empty input reserve the single quote is nothing, so a split in two gains exactly when its
      second quote pays something. */
  lemma EmptyReserveSplit(y: U128, a: U128, b: U128, feeBps: U16)
    requires a + b <= U128_MAX && SwapAll(Pool(0, y), [a, b], feeBps).Some?
    ensures feeBps < FEE_DENOM && ExpectedOut(0, y, a + b, feeBps) == Some(0)
    ensures SwapAll(Pool(0, y), [a, b], feeBps).value.paid > 0 <==> a > 0 && y * AfterFee(b, feeBps) >= a + AfterFee(b, feeBps)
  {
    var pool := Pool(0, y);
    var first := SwapOnce(pool, a, feeBps).value;
    assert first == Outcome(Pool(a, y), 0);
    assert [a, b][1..] == [b] && [b][1..] == [];
    var second := SwapOnce(Pool(a, y), b, feeBps).value;
    assert SwapAll(Pool(a, y), [b], feeBps).value.paid == second.paid;
    if a > 0 {
      QuoteIsFloor(a, y, b, feeBps);
      var d := AfterFee(b, feeBps);
      if second.paid > 0 { MulMonotone(1, second.paid, a + d); } else { assert y * d < 1 * (a + d); }
    }
  }

  lemma EmptyReserveSplitGains()
    ensures SwapAll(Pool(0, 100), [1, 1], 0) == Some(Outcome(Pool(2, 50), 50))
    ensures ExpectedOut(0, 100, 2, 0) == Some(0)
  {
    assert [1, 1][1..] == [1] && [1][1..] == [];
    assert SwapOnce(Pool(0, 100), 1, 0) == Some(Outcome(Pool(1, 100), 0));
    assert CheckedMul(1, 10_000) == Some(10_000) && CheckedMul(100, 1) == Some(100) && CheckedSum(1, 1) == Some(2);
    assert ExpectedOut(1, 100, 1, 0) == Some(50);
    assert SwapOnce(Pool(1, 100), 1, 0) == Some(Outcome(Pool(2, 50), 50));
    assert SwapAll(Pool(1, 100), [1], 0) == Some(Outcome(Pool(2, 50), 50));
  }

  // ----- the quote shown -----

  function MinOutAfterSlippage(out: U128, slippageBps: U16): Option<U128> {
    var slippage := if slippageBps < FEE_DENOM then slippageBps else FEE_DENOM;
    var scaled := CheckedMul(out, FEE_DENOM - slippage);
    if scaled.None? then None else Some(scaled.value / FEE_DENOM)
  }

  datatype SwapQuote = SwapQuote(inUnits: U128, outUnits: U128, minOutUnits: U128, feeBps: U16, slippageBps: U16)

  function QuoteSwap(inUnits: U128, reserveIn: U128, reserveOut: U128, feeBps: U16, slippageBps: U16): Option<SwapQuote> {
    var out := ExpectedOut(reserveIn, reserveOut, inUnits, feeBps);
    if out.None? then None
    else
      var minOut := MinOutAfterSlippage(out.value, slippageBps);
      if minOut.None? then None else Some(SwapQuote(inUnits, out.value, minOut.value, feeBps, slippageBps))
  }

  /** The least output accepted is the quote less the slippage, rounded down: never more than the
      quote, all of it without slippage, nothing at full slippage. A quote fails only by overflow. */
  lemma QuoteBounds(inUnits: U128, x: U128, y: U128, feeBps: U16, slippageBps: U16)
    requires QuoteSwap(inUnits, x, y, feeBps, slippageBps).Some?
    ensures var q := QuoteSwap(inUnits, x, y, feeBps, slippageBps).value;
      && q.minOutUnits <= q.outUnits <= y
      && (slippageBps == 0 ==> q.minOutUnits == q.outUnits)
      && (slippageBps >= FEE_DENOM ==> q.minOutUnits == 0)
      && (slippageBps < FEE_DENOM ==> IsFloor(q.minOutUnits, q.outUnits * (FEE_DENOM - slippageBps), FEE_DENOM))
  {
    var q := QuoteSwap(inUnits, x, y, feeBps, slippageBps).value;
    QuoteWithinReserve(Pool(x, y), inUnits, feeBps);
    if slippageBps < FEE_DENOM {
      DivIsFloor(q.outUnits * (FEE_DENOM - slippageBps), FEE_DENOM);
      AfterFeeAtMost(q.outUnits, slippageBps);
    } else {
      assert q.outUnits * 0 == 0;
    }
  }

  /** A quote is refused exactly for a fee of all or more, or when a product or sum leaves 128 bits. */
  lemma QuoteFailsOnlyByOverflow(x: U128, y: U128, dx: U128, feeBps: U16)
    ensures ExpectedOut(x, y, dx, feeBps).None? <==>
      || feeBps >= FEE_DENOM
      || (x > 0 && dx * (FEE_DENOM - feeBps) > U128_MAX)
      || (x > 0 && AfterFee(dx, feeBps) > 0 && (y * AfterFee(dx, feeBps) > U128_MAX || x + AfterFee(dx, feeBps) > U128_MAX))
  {}

  // ----- the fee -----

  /** The pool keeps at least the fee's share of the input, and less than one unit more. */
  lemma FeeTaken(dx: nat, feeBps: nat)
    requires feeBps < 10_000
    ensures AfterFee(dx, feeBps) <= dx
    ensures dx * feeBps <= (dx - AfterFee(dx, feeBps)) * 10_000 < dx * feeBps + 10_000
    ensures feeBps == 0 ==> AfterFee(dx, feeBps) == dx
  {
    AfterFeeAtMost(dx, feeBps);
    DivIsFloor(dx * (10_000 - feeBps), 10_000);
    MulDistributes(10_000 - feeBps, feeBps, dx);
  }

  lemma AfterFeeFalls(dx: nat, low: nat, high: nat)
    requires low <= high < 10_000
    ensures AfterFee(dx, high) <= AfterFee(dx, low)
  {
    MulMonotone(10_000 - high, 10_000 - low, dx);
    FloorsKeepOrder(dx * (10_000 - high), dx * (10_000 - low));
  }

  lemma FloorsKeepOrder(a: nat, b: nat)
    requires a <= b
    ensures a / 10_000 <= b / 10_000
  {}

  /** A larger fee never pays more. */
  lemma FeeNeverHelps(x: U128, y: U128, dx: U128, low: U16, high: U16)
    requires low <= high && x > 0
    requires ExpectedOut(x, y, dx, low).Some? && ExpectedOut(x, y, dx, high).Some?
    ensures ExpectedOut(x, y, dx, high).value <= ExpectedOut(x, y, dx, low).value
  {
    var s, d, q, o := AfterFee(dx, high), AfterFee(dx, low), ExpectedOut(x, y, dx, low).value, ExpectedOut(x, y, dx, high).value;
    QuoteIsFloor(x, y, dx, low);
    QuoteIsFloor(x, y, dx, high);
    AfterFeeFalls(dx, low, high);
    QuoteWithinReserve(Pool(x, y), dx, high);
    FloorMonotone(x, y, s, d, o);
    FloorIsLargest(q, y * d, x + d, o);
  }
}
