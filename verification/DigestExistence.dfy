/** When a digest exists at all: which row sets and tickets encode, in terms of the rows and the
    lengths of their variable fields; and how the rows are laid out. */
module DigestExistence {
  import opened Wrappers
  import opened Bytes
  import opened Amounts
  import opened Affordability
  import opened Sorting
  import opened Digests
  import Decimal

  // ----- lengths -----

  /** Six bytes of tag and length before every field. */
  function FramedLength(fields: seq<Bytes>): nat {
    if fields == [] then 0 else 6 + |fields[0]| + FramedLength(fields[1..])
  }

  lemma {:induction false} FramesExist(fields: seq<Bytes>, index: nat)
    ensures Frames(fields, index).Ok? <==>
      (fields != [] ==> index + |fields| <= U16_MAX) && forall i :: 0 <= i < |fields| ==> |fields[i]| <= U32_MAX
    ensures Frames(fields, index).Ok? ==> |Frames(fields, index).value| == FramedLength(fields)
  {
    if fields != [] {
      FramesExist(fields[1..], index + 1);
      assert forall i :: 0 < i < |fields| ==> fields[i] == fields[1..][i - 1];
    }
  }

  lemma ThreeFields(fields: seq<Bytes>)
    requires |fields| == 3
    ensures FramedLength(fields) == 18 + |fields[0]| + |fields[1]| + |fields[2]|
  {
    var rest, last := fields[1..], fields[2..];
    assert rest[1..] == last && last[1..] == [];
    assert FramedLength(last) == 6 + |fields[2]|;
    assert FramedLength(rest) == 6 + |fields[1]| + FramedLength(last);
  }

  /** Every blocker row takes 87 bytes. */
  lemma BlockerRowExists(row: BlockerRow)
    ensures BlockerRowBytes(row).Ok? <==> row.evidence !in {VerifiedTerminalSuccess, VerifiedTerminalFailedOnChain, NotBroadcast}
    ensures BlockerRowBytes(row).Ok? ==> |BlockerRowBytes(row).value| == 87
  {
    var fields := BlockerFields(row);
    FramesExist(fields, 0);
    ThreeFields(fields);
  }

  function Digits(n: nat): nat {
    |Decimal.Text(n)|
  }

  /** An amount takes 28 bytes, four more for a currency id, and its decimal digits. */
  function AmountLength(amount: AssetAmount): nat {
    (if amount.asset.Native? then 28 else 32) + Digits(amount.units)
  }

  lemma DigitsBelow(n: nat, most: nat)
    requires most >= 1 && n < Decimal.Pow10(most)
    ensures 1 <= Digits(n) <= most
  {
    Decimal.TextIsCanonical(n);
    if n > 0 && Digits(n) > most {
      Decimal.ValueAtLeast(Decimal.Text(n));
      Decimal.Pow10Monotone(most, Digits(n) - 1);
    }
  }

  lemma DigitsInDomain(amount: AssetAmount)
    ensures 1 <= Digits(amount.units) <= if amount.asset.Native? then 37 else 75
  {
    Decimal.Pow10Bounds();
    DigitsBelow(amount.units, if amount.asset.Native? then 37 else 75);
  }

  lemma AmountBytesLength(amount: AssetAmount)
    ensures |AssetAmountBytes(amount)| == AmountLength(amount)
  {}

  /** A reservation row takes 55 bytes beside its amount. */
  function ReservationLength(row: Reservation): nat {
    55 + AmountLength(row.amount)
  }

  lemma ReservationRowExists(row: Reservation)
    ensures ReservationRowBytes(row).Ok? <==> (row.kind.NativeFee? ==> row.amount.asset.Native?)
    ensures ReservationRowBytes(row).Ok? ==> |ReservationRowBytes(row).value| == ReservationLength(row)
    ensures ReservationLength(row) <= 162
  {
    var fields := ReservationFields(row);
    AmountBytesLength(row.amount);
    DigitsInDomain(row.amount);
    FramesExist(fields, 0);
    ThreeFields(fields);
  }

  // ----- set blobs -----

  predicate DistinctKeys(items: seq<Item>) {
    forall i, j :: 0 <= i < j < |items| ==> items[i].key != items[j].key
  }

  function KeyOf(item: Item): seq<Bytes> { item.key }

  function ItemLength(item: Item): nat { |item.bytes| }

  lemma DistinctKeysPermute(a: seq<Item>, b: seq<Item>)
    requires multiset(a) == multiset(b) && DistinctKeys(a)
    ensures DistinctKeys(b)
  {
    MapPermutes(KeyOf, a, b);
    DistinctPermutation(Map(KeyOf, a), Map(KeyOf, b));
    forall i, j | 0 <= i < j < |b| ensures b[i].key != b[j].key {
      assert Map(KeyOf, b)[i] != Map(KeyOf, b)[j];
    }
  }

  /** In sorted order equal keys are neighbours. */
  lemma NeighboursDecide(items: seq<Item>)
    requires Sorted(items, ItemLe)
    ensures AdjacentKeysDiffer(items) <==> DistinctKeys(items)
  {
    if AdjacentKeysDiffer(items) {
      forall i, j | 0 <= i < j < |items| ensures items[i].key != items[j].key {
        assert ItemLe(items[i], items[i + 1]);
        if items[i].key == items[j].key {
          assert i + 1 < j ==> ItemLe(items[i + 1], items[j]);
          KeyReflexive(items[j].key);
          KeyTransitiveTie(items[i].key, items[i + 1].key, items[j].key);
        }
      }
    }
  }

  lemma {:induction false} KeyReflexive(k: seq<Bytes>)
    ensures KeyLe(k, k)
  {
    if k != [] { KeyReflexive(k[1..]); }
  }

  lemma {:induction false} ConcatLength(items: seq<Item>)
    ensures |ConcatAll(Map(RowBytes, items))| == Total(ItemLength, items)
  {
    if items != [] {
      assert Map(RowBytes, items)[1..] == Map(RowBytes, items[1..]);
      ConcatLength(items[1..]);
    }
  }

  lemma {:induction false} TotalAtLeastCount(items: seq<Item>)
    requires forall i :: 0 <= i < |items| ==> items[i].bytes != []
    ensures Total(ItemLength, items) >= |items|
  {
    if items != [] { TotalAtLeastCount(items[1..]); }
  }

  /** Nonempty rows assemble exactly when no two share a key and their bytes, with the count, fit. */
  lemma SetBlobExists(items: seq<Item>)
    requires forall i :: 0 <= i < |items| ==> items[i].bytes != []
    ensures SetBlob(items).Ok? <==> DistinctKeys(items) && 4 + Total(ItemLength, items) <= U32_MAX
    ensures SetBlob(items).Ok? ==> |SetBlob(items).value| <= U32_MAX
  {
    var ordered := Sort(items, ItemLe);
    ItemLeIsPreorder();
    SortPermutes(items, ItemLe);
    SortSorts(items, ItemLe);
    NeighboursDecide(ordered);
    if DistinctKeys(items) { DistinctKeysPermute(items, ordered); }
    if DistinctKeys(ordered) { DistinctKeysPermute(ordered, items); }
    TotalPermutes(ItemLength, items, ordered);
    ConcatLength(ordered);
    TotalAtLeastCount(items);
  }

  lemma BlobDigestExists(kind: DigestKind, blob: Bytes)
    requires |blob| <= U32_MAX
    ensures DigestOf(kind, [blob]).Ok?
  {
    FramesExist([blob], 0);
  }

  // ----- set digests -----

  predicate DistinctIds(rows: seq<BlockerRow>) {
    forall i, j :: 0 <= i < j < |rows| ==> rows[i].recordId != rows[j].recordId
  }

  /** The first row that does not encode, if any, decides the error; none does exactly when all encode. */
  lemma {:induction false} SameLengths(items: seq<Item>, length: nat)
    requires forall i :: 0 <= i < |items| ==> |items[i].bytes| == length
    ensures Total(ItemLength, items) == length * |items|
  {
    if items != [] { SameLengths(items[1..], length); }
  }

  /** A blocker set has a digest exactly when every row blocks, no record occurs twice, and 87 bytes
      a row fit the 32-bit length. */
  lemma BlockerSetDigestExists(rows: seq<BlockerRow>)
    ensures BlockerSetDigest(rows).Ok? <==>
      && (forall i :: 0 <= i < |rows| ==> rows[i].evidence !in {VerifiedTerminalSuccess, VerifiedTerminalFailedOnChain, NotBroadcast})
      && DistinctIds(rows) && 4 + 87 * |rows| <= 0xFFFF_FFFF
  {
    forall i | 0 <= i < |rows|
      ensures BlockerRowBytes(rows[i]).Ok? <==> rows[i].evidence !in {VerifiedTerminalSuccess, VerifiedTerminalFailedOnChain, NotBroadcast}
      ensures BlockerRowBytes(rows[i]).Ok? ==> |BlockerRowBytes(rows[i]).value| == 87
    {
      BlockerRowExists(rows[i]);
    }
    if FirstBlockerError(rows).None? {
      var items := Map(BlockerItem, rows);
      SetBlobExists(items);
      SameLengths(items, 87);
      forall i, j | 0 <= i < j < |rows| ensures items[i].key != items[j].key <==> rows[i].recordId != rows[j].recordId {
        assert items[i].key == [rows[i].recordId] && items[j].key == [rows[j].recordId];
        assert items[i].key[0] == rows[i].recordId && items[j].key[0] == rows[j].recordId;
      }
      if SetBlob(items).Ok? { BlobDigestExists(BlockerSet, SetBlob(items).value); }
    }
  }

  /** The bytes of a set of reservation rows. */
  function RowsLength(rows: seq<Reservation>): nat {
    Total(ReservationLength, rows)
  }

  lemma ItemLengths(rows: seq<Reservation>)
    requires FirstReservationError(rows).None?
    ensures Total(ItemLength, Map(ReservationItem, rows)) == RowsLength(rows)
    ensures forall i :: 0 <= i < |rows| ==> Map(ReservationItem, rows)[i].bytes != []
  {
    forall i | 0 <= i < |rows|
      ensures ItemLength(Map(ReservationItem, rows)[i]) == ReservationLength(rows[i])
      ensures Map(ReservationItem, rows)[i].bytes != []
    {
      ReservationRowExists(rows[i]);
    }
    TotalAgrees(ItemLength, Map(ReservationItem, rows), ReservationLength, rows);
  }

  lemma FieldsInjective(a: Reservation, b: Reservation)
    ensures ReservationFields(a) == ReservationFields(b) <==> a == b
  {
    if ReservationFields(a) == ReservationFields(b) {
      assert ReservationFields(a)[0] == ReservationFields(b)[0] && ReservationFields(a)[1] == ReservationFields(b)[1];
      assert ReservationFields(a)[2][0] == ReservationFields(b)[2][0];
      AssetAmountBytesInjective(a.amount, b.amount);
    }
  }

  /** A reservation-like set has a digest exactly when no row occurs twice, every fee row is native,
      and the rows' bytes fit the 32-bit length. */
  lemma ReservationSetDigestExists(kind: DigestKind, rows: seq<Reservation>)
    ensures ReservationLikeSetDigest(kind, rows).Ok? <==>
      && Distinct(rows) && (forall i :: 0 <= i < |rows| && rows[i].kind.NativeFee? ==> rows[i].amount.asset.Native?)
      && 4 + RowsLength(rows) <= 0xFFFF_FFFF
  {
    forall i | 0 <= i < |rows|
      ensures ReservationRowBytes(rows[i]).Ok? <==> (rows[i].kind.NativeFee? ==> rows[i].amount.asset.Native?)
    {
      ReservationRowExists(rows[i]);
    }
    if FirstReservationError(rows).None? {
      var items := Map(ReservationItem, rows);
      ItemLengths(rows);
      SetBlobExists(items);
      forall i, j | 0 <= i < j < |rows| ensures items[i].key != items[j].key <==> rows[i] != rows[j] {
        FieldsInjective(rows[i], rows[j]);
      }
      if SetBlob(items).Ok? { BlobDigestExists(kind, SetBlob(items).value); }
    }
  }

  lemma {:induction false} RowsLengthBound(rows: seq<Reservation>)
    ensures RowsLength(rows) <= 162 * |rows|
  {
    if rows != [] {
      RowsLengthBound(rows[1..]);
      ReservationRowExists(rows[0]);
    }
  }

  const MAX_BLOCKERS := 49_367_440
  const MAX_RESERVATIONS := 26_512_143

  /** Up to this number of blockers only the rows themselves decide, beyond it there is no digest. */
  lemma BlockersOfOrdinarySize(rows: seq<BlockerRow>)
    requires DistinctIds(rows) && forall i :: 0 <= i < |rows| ==> rows[i].evidence.IsBlocking()
    ensures BlockerSetDigest(rows).Ok? <==> |rows| <= MAX_BLOCKERS
  {
    BlockerSetDigestExists(rows);
  }

  /** Up to this number of reservations only the rows themselves decide. */
  lemma ReservationsOfOrdinarySize(kind: DigestKind, rows: seq<Reservation>)
    requires |rows| <= MAX_RESERVATIONS && Distinct(rows)
    requires forall i :: 0 <= i < |rows| && rows[i].kind.NativeFee? ==> rows[i].amount.asset.Native?
    ensures ReservationLikeSetDigest(kind, rows).Ok?
  {
    ReservationSetDigestExists(kind, rows);
    RowsLengthBound(rows);
  }

  // ----- tickets -----

  /** A ticket has a digest exactly when its two texts fit the 32-bit length. */
  lemma TicketDigestExists(t: TicketDigestInput)
    ensures TicketDigest(t).Ok? <==> |t.senderWalletId| <= 0xFFFF_FFFF && |t.endpointIdentity| <= 0xFFFF_FFFF
  {
    var fields := TicketFields(t);
    FramesExist(fields, 0);
    AmountBytesLength(t.value);
    DigitsInDomain(t.value);
    assert |fields[0]| == 32 && |fields[2]| == 33 && |fields[3]| == 4 && |fields[5]| == 33 && |fields[7]| == 1;
    assert |fields[8]| == 8 && |fields[9]| == 8 && |fields[6]| <= 107;
    assert fields[1] == t.senderWalletId && fields[4] == t.endpointIdentity;
  }

  // ----- the layout, byte by byte -----

  lemma FixedFrame(tag: U16, bytes: Bytes, n: byte)
    requires |bytes| == n && tag < 0x100
    ensures Frame(tag, bytes) == Ok([0, tag, 0, 0, 0, n] + bytes)
  {
    assert U16Be(0) == [0, 0] && U16Be(n) == [0, n] && U16Be(tag) == [0, tag];
    assert U32Be(n) == [0, 0, 0, n];
    assert U16Be(tag) + U32Be(n) == [0, tag, 0, 0, 0, n];
  }

  lemma FramesOfThree(a: Bytes, b: Bytes, c: Bytes)
    requires Frame(1, a).Ok? && Frame(2, b).Ok? && Frame(3, c).Ok?
    ensures Frames([a, b, c], 0) == Ok(Frame(1, a).value + Frame(2, b).value + Frame(3, c).value)
  {
    assert [a, b, c][1..] == [b, c] && [b, c][1..] == [c] && [c][1..] == [];
    assert Frames([c], 2) == Ok(Frame(3, c).value + []);
    assert Frame(3, c).value + [] == Frame(3, c).value;
    assert Frames([b, c], 1) == Ok(Frame(2, b).value + Frame(3, c).value);
    assert Frame(1, a).value + (Frame(2, b).value + Frame(3, c).value) == Frame(1, a).value + Frame(2, b).value + Frame(3, c).value;
  }

  /** The published framing of a blocker row. */
  lemma BlockerRowLayout(row: BlockerRow)
    requires row.evidence.IsBlocking()
    ensures BlockerRowBytes(row) == Ok(
      [0, 0, 0, 83] + ([0, 1, 0, 0, 0, 32] + row.recordId + ([0, 2, 0, 0, 0, 1] + [row.evidence.Code()])
                       + ([0, 3, 0, 0, 0, 32] + row.externalHash)))
  {
    FixedFrame(1, row.recordId, 32);
    FixedFrame(2, [row.evidence.Code()], 1);
    FixedFrame(3, row.externalHash, 32);
    FramesOfThree(row.recordId, [row.evidence.Code()], row.externalHash);
    assert U32Be(83) == [0, 0, 0, 83];
  }

  /** The published framing of a reservation row. */
  lemma ReservationRowLayout(row: Reservation)
    requires row.kind.NativeFee? ==> row.amount.asset.Native?
    ensures AmountLength(row.amount) < 0x80
    ensures ReservationRowBytes(row) == Ok(
      [0, 0, 0, 51 + AmountLength(row.amount)]
      + ([0, 1, 0, 0, 0, 32] + row.recordId + ([0, 2, 0, 0, 0, AmountLength(row.amount)] + AssetAmountBytes(row.amount))
         + ([0, 3, 0, 0, 0, 1] + [if row.kind.Transfer? then 0 else 1])))
  {
    AmountBytesLength(row.amount);
    DigitsInDomain(row.amount);
    var n: byte := 51 + AmountLength(row.amount);
    FixedFrame(1, row.recordId, 32);
    FixedFrame(2, AssetAmountBytes(row.amount), AmountLength(row.amount));
    FixedFrame(3, [KindCode(row.kind)], 1);
    FramesOfThree(row.recordId, AssetAmountBytes(row.amount), [KindCode(row.kind)]);
    assert U16Be(0) == [0, 0] && U16Be(n) == [0, n];
    assert U32Be(n) == [0, 0, 0, n];
  }

  /** The published codes of the evidence tags, which are also the blocking ones up to number 5. */
  lemma TagCodes(tag: EvidenceTag)
    ensures tag == [Prepared, AttemptStarted, MayHaveBroadcast, NodeResponseObserved, EndpointReportedSuccess,
                    EndpointReportedFailedOnChain, VerifiedTerminalSuccess, VerifiedTerminalFailedOnChain,
                    NotBroadcast][tag.Code()]
    ensures tag.IsBlocking() <==> tag.Code() <= 5
  {}

  /** The published encodings of one native unit and of one unit of currency 2. */
  lemma AmountGoldens()
    ensures AssetAmountBytes(TaggedUnits(Native, 1)) == Ascii("cc-wallet/asset-amount/v1") + [0] + [0, 1, 0x31]
    ensures AssetAmountBytes(TaggedUnits(CurrencyCollection(2), 1))
      == Ascii("cc-wallet/asset-amount/v1") + [0] + [1, 0, 0, 0, 2, 1, 0x31]
  {
    assert Decimal.Text(1) == ['1'] && Ascii("1") == [0x31];
    assert U16Be(0) == [0, 0] && U16Be(2) == [0, 2];
    assert U32Be(2) == [0, 0, 0, 2];
    assert LenPrefixedDecimal(1) == [1, 0x31];
  }

  /** Strictly ascending record ids, as byte strings. */
  ghost predicate Ascending(rows: seq<BlockerRow>) {
    forall i, j :: 0 <= i < j < |rows| ==> LexLe(rows[i].recordId, rows[j].recordId) && rows[i].recordId != rows[j].recordId
  }

  function RowEncoding(row: BlockerRow): Bytes {
    if BlockerRowBytes(row).Ok? then BlockerRowBytes(row).value else []
  }

  lemma OneKey(a: Bytes, b: Bytes)
    ensures KeyLe([a], [b]) <==> LexLe(a, b)
  {
    if a == b { LexTotal(a, a); }
    assert [a][1..] == [];
  }

  lemma AscendingItems(rows: seq<BlockerRow>)
    requires Ascending(rows)
    ensures Sorted(Map(BlockerItem, rows), ItemLe) && AdjacentKeysDiffer(Map(BlockerItem, rows))
  {
    var items := Map(BlockerItem, rows);
    forall i, j | 0 <= i < j < |items| ensures ItemLe(items[i], items[j]) {
      OneKey(rows[i].recordId, rows[j].recordId);
    }
    forall i | 0 <= i < |items| - 1 ensures items[i].key != items[i + 1].key {
      assert items[i].key[0] == rows[i].recordId && items[i + 1].key[0] == rows[i + 1].recordId;
    }
  }

  /** The blob of a set: its row count, then its rows by ascending record id. */
  lemma BlobIsAscending(rows: seq<BlockerRow>)
    requires Ascending(rows) && |rows| <= MAX_BLOCKERS && forall i :: 0 <= i < |rows| ==> rows[i].evidence.IsBlocking()
    ensures BlockerSetDigest(rows) == DigestOf(BlockerSet, [U32Be(|rows|) + ConcatAll(Map(RowEncoding, rows))])
  {
    var items := Map(BlockerItem, rows);
    BlockersOfOrdinarySize(rows);
    AscendingItems(rows);
    ItemLeIsPreorder();
    SortPermutes(items, ItemLe);
    SortSorts(items, ItemLe);
    AdjacentSeparates(items);
    SortedUnique(items, Sort(items, ItemLe), ItemLe);
    assert Map(RowBytes, items) == Map(RowEncoding, rows);
  }
}
