/** Canonical digests (crates/cc-wallet-domain/src/digest.rs). SHA-256 is modelled as the
    injective constructor `Sha256` over the exact bytes hashed, so that equality of digests
    is equality of those bytes; everything proved here is about the bytes. */
module Digests {
  import opened Wrappers
  import opened Bytes
  import opened Amounts
  import opened Affordability
  import opened Sorting
  import Decimal

  datatype Digest = Sha256(preimage: Bytes)

  datatype DigestError =
    | FieldTooLong | TooManyFields | TooManyRows | DuplicateRow | NonBlockingEvidence | NativeFeeRequiresNativeAmount

  datatype DigestKind = Ticket | BlockerSet | ReservationSet | OverlapSet
  {
    function Name(): (s: string)
      ensures forall i :: 0 <= i < |s| ==> s[i] < '\U{80}'
    {
      match this
      case Ticket => "ticket"
      case BlockerSet => "blocker-set"
      case ReservationSet => "reservation-set"
      case OverlapSet => "overlap-set"
    }
  }

  // ----- frames -----

  function CheckedFieldLen(len: nat): Result<U32, DigestError> {
    if len > U32_MAX then Err(FieldTooLong) else Ok(len)
  }

  function Frame(tag: U16, bytes: Bytes): (r: Result<Bytes, DigestError>)
    ensures r.Ok? <==> |bytes| <= U32_MAX
  {
    if |bytes| > U32_MAX then Err(FieldTooLong)
    else Ok(U16Be(tag) + U32Be(|bytes|) + bytes)
  }

  /** Consecutive fields, tagged from `index + 1`. */
  function Frames(fields: seq<Bytes>, index: nat): Result<Bytes, DigestError> {
    if fields == [] then Ok([])
    else if index + 1 > U16_MAX then Err(TooManyFields)
    else
      var head := Frame(index + 1, fields[0]);
      if head.Err? then Err(head.error)
      else
        var rest := Frames(fields[1..], index + 1);
        if rest.Err? then Err(rest.error) else Ok(head.value + rest.value)
  }

  lemma FrameCut(tag: U16, a: Bytes, s: Bytes, tag': U16, b: Bytes, t: Bytes)
    requires |a| <= U32_MAX && |b| <= U32_MAX
    requires Frame(tag, a).value + s == Frame(tag', b).value + t
    ensures a == b && s == t
  {
    var p, q := Frame(tag, a).value + s, Frame(tag', b).value + t;
    assert U32Be(|a|) == p[2..6] == q[2..6] == U32Be(|b|);
    U32Injective(|a|, |b|);
    assert a == p[6..6 + |a|] == q[6..6 + |a|] == b;
    assert s == p[6 + |a|..] == q[6 + |a|..] == t;
  }

  /** Framing loses nothing: the number of fields and every field can be read back. */
  lemma {:induction false} FramesInjective(f: seq<Bytes>, g: seq<Bytes>, index: nat)
    requires Frames(f, index).Ok? && Frames(g, index).Ok?
    requires Frames(f, index).value == Frames(g, index).value
    ensures f == g
  {
    if f != [] && g != [] {
      FrameCut(index + 1, f[0], Frames(f[1..], index + 1).value, index + 1, g[0], Frames(g[1..], index + 1).value);
      FramesInjective(f[1..], g[1..], index + 1);
      assert f == [f[0]] + f[1..] && g == [g[0]] + g[1..];
    }
  }

  const DIGEST_DOMAIN := "cc-wallet/journal-v1/"

  function DigestHeader(kind: DigestKind): Bytes {
    Ascii(DIGEST_DOMAIN) + Ascii(kind.Name()) + [0]
  }

  function DigestOf(kind: DigestKind, fields: seq<Bytes>): Result<Digest, DigestError> {
    var frames := Frames(fields, 0);
    if frames.Err? then Err(frames.error) else Ok(Sha256(DigestHeader(kind) + frames.value))
  }

  /** `digest`: the hasher is fed the header and then one frame per field. */
  method HashFields(kind: DigestKind, fields: seq<Bytes>) returns (r: Result<Digest, DigestError>)
    ensures r == DigestOf(kind, fields)
  {
    var hashed := DigestHeader(kind);
    for index := 0 to |fields|
      invariant Frames(fields, 0).Ok? <==> Frames(fields[index..], index).Ok?
      invariant Frames(fields, 0).Err? ==> Frames(fields, 0) == Frames(fields[index..], index)
      invariant Frames(fields, 0).Ok? ==>
        DigestHeader(kind) + Frames(fields, 0).value == hashed + Frames(fields[index..], index).value
    {
      assert fields[index..][1..] == fields[index + 1..];
      if index + 1 > U16_MAX {
        return Err(TooManyFields);
      }
      var frame := Frame(index + 1, fields[index]);
      if frame.Err? {
        return Err(frame.error);
      }
      hashed := hashed + frame.value;
    }
    assert fields[|fields|..] == [] && hashed + [] == hashed;
    return Ok(Sha256(hashed));
  }

  lemma HeaderCut(kind: DigestKind, s: Bytes, kind': DigestKind, t: Bytes)
    requires DigestHeader(kind) + s == DigestHeader(kind') + t
    ensures kind == kind' && s == t
  {
    var p, q := DigestHeader(kind) + s, DigestHeader(kind') + t;
    assert p[21] == kind.Name()[0] as int && q[21] == kind'.Name()[0] as int;
    assert s == p[|DigestHeader(kind)|..] && t == q[|DigestHeader(kind')|..];
  }

  /** Digests of different kinds, or of different field lists, never coincide. */
  lemma DigestSeparates(kind: DigestKind, f: seq<Bytes>, kind': DigestKind, g: seq<Bytes>)
    requires DigestOf(kind, f).Ok? && DigestOf(kind', g).Ok?
    ensures DigestOf(kind, f) == DigestOf(kind', g) <==> kind == kind' && f == g
  {
    if DigestOf(kind, f) == DigestOf(kind', g) {
      HeaderCut(kind, Frames(f, 0).value, kind', Frames(g, 0).value);
      FramesInjective(f, g, 0);
    }
  }

  // ----- amounts -----

  const AMOUNT_DOMAIN := "cc-wallet/asset-amount/v1"

  function LenPrefixedDecimal(units: nat): Bytes {
    [|Decimal.Text(units)| % 0x100] + Ascii(Decimal.Text(units))
  }

  function TaggedAmountBytes(amount: AssetAmount): Bytes {
    match amount.asset
    case Native => [0x00] + LenPrefixedDecimal(amount.units)
    case CurrencyCollection(id) => [0x01] + U32Be(id) + LenPrefixedDecimal(amount.units)
  }

  function AssetAmountBytes(amount: AssetAmount): Bytes {
    Ascii(AMOUNT_DOMAIN) + [0] + TaggedAmountBytes(amount)
  }

  lemma AsciiInjective(s: string, t: string)
    requires forall i :: 0 <= i < |s| ==> s[i] < '\U{80}'
    requires forall i :: 0 <= i < |t| ==> t[i] < '\U{80}'
    requires Ascii(s) == Ascii(t)
    ensures s == t
  {
    assert |s| == |Ascii(s)| == |t|;
    forall i | 0 <= i < |s| ensures s[i] == t[i] {
      assert Ascii(s)[i] == Ascii(t)[i];
    }
  }

  lemma DecimalInjective(m: nat, n: nat)
    requires LenPrefixedDecimal(m) == LenPrefixedDecimal(n)
    ensures m == n
  {
    assert Ascii(Decimal.Text(m)) == LenPrefixedDecimal(m)[1..] == LenPrefixedDecimal(n)[1..] == Ascii(Decimal.Text(n));
    AsciiInjective(Decimal.Text(m), Decimal.Text(n));
    Decimal.TextIsCanonical(m);
    Decimal.TextIsCanonical(n);
  }

  lemma TaggedAmountInjective(a: AssetAmount, b: AssetAmount)
    requires TaggedAmountBytes(a) == TaggedAmountBytes(b)
    ensures a == b
  {
    var p, q := TaggedAmountBytes(a), TaggedAmountBytes(b);
    assert p[0] == q[0];
    if a.asset.Native? {
      assert LenPrefixedDecimal(a.units) == p[1..] == q[1..] == LenPrefixedDecimal(b.units);
    } else {
      assert U32Be(a.asset.id) == p[1..5] == q[1..5] == U32Be(b.asset.id);
      U32Injective(a.asset.id, b.asset.id);
      assert LenPrefixedDecimal(a.units) == p[5..] == q[5..] == LenPrefixedDecimal(b.units);
    }
    DecimalInjective(a.units, b.units);
  }

  lemma AssetAmountBytesInjective(a: AssetAmount, b: AssetAmount)
    requires AssetAmountBytes(a) == AssetAmountBytes(b)
    ensures a == b
  {
    var header := Ascii(AMOUNT_DOMAIN) + [0];
    assert TaggedAmountBytes(a) == AssetAmountBytes(a)[|header|..];
    assert TaggedAmountBytes(b) == AssetAmountBytes(b)[|header|..];
    TaggedAmountInjective(a, b);
  }

  // ----- rows -----

  datatype EvidenceTag =
    | Prepared | AttemptStarted | MayHaveBroadcast | NodeResponseObserved
    | EndpointReportedSuccess | EndpointReportedFailedOnChain
    | VerifiedTerminalSuccess | VerifiedTerminalFailedOnChain | NotBroadcast
  {
    function Code(): byte {
      match this
      case Prepared => 0
      case AttemptStarted => 1
      case MayHaveBroadcast => 2
      case NodeResponseObserved => 3
      case EndpointReportedSuccess => 4
      case EndpointReportedFailedOnChain => 5
      case VerifiedTerminalSuccess => 6
      case VerifiedTerminalFailedOnChain => 7
      case NotBroadcast => 8
    }

    predicate IsBlocking() {
      !VerifiedTerminalSuccess? && !VerifiedTerminalFailedOnChain? && !NotBroadcast?
    }
  }

  datatype BlockerRow = BlockerRow(recordId: Bytes32, evidence: EvidenceTag, externalHash: Bytes32)

  function KindCode(kind: ReservationKind): byte {
    if kind.Transfer? then 0 else 1
  }

  function PrefixRowLength(body: Bytes): Result<Bytes, DigestError> {
    if |body| > U32_MAX then Err(FieldTooLong) else Ok(U32Be(|body|) + body)
  }

  function RowOfFields(fields: seq<Bytes>): Result<Bytes, DigestError> {
    var body := Frames(fields, 0);
    if body.Err? then Err(body.error) else PrefixRowLength(body.value)
  }

  function BlockerFields(row: BlockerRow): seq<Bytes> {
    [row.recordId, [row.evidence.Code()], row.externalHash]
  }

  function BlockerRowBytes(row: BlockerRow): Result<Bytes, DigestError> {
    if !row.evidence.IsBlocking() then Err(NonBlockingEvidence) else RowOfFields(BlockerFields(row))
  }

  function ReservationFields(row: Reservation): seq<Bytes> {
    [row.recordId, AssetAmountBytes(row.amount), [KindCode(row.kind)]]
  }

  function ReservationRowBytes(row: Reservation): Result<Bytes, DigestError> {
    if row.kind.NativeFee? && !row.amount.asset.Native? then Err(NativeFeeRequiresNativeAmount)
    else RowOfFields(ReservationFields(row))
  }

  ghost predicate IsRow(row: Bytes) {
    exists fields :: RowOfFields(fields) == Ok(row)
  }

  lemma RowCut(a: Bytes, s: Bytes, b: Bytes, t: Bytes)
    requires IsRow(a) && IsRow(b) && a + s == b + t
    ensures a == b && s == t
  {
    var f :| RowOfFields(f) == Ok(a);
    var g :| RowOfFields(g) == Ok(b);
    var m, n := |Frames(f, 0).value|, |Frames(g, 0).value|;
    assert U32Be(m) == (a + s)[..4] == (b + t)[..4] == U32Be(n);
    U32Injective(m, n);
    assert |a| == |b|;
    assert a == (a + s)[..|a|] == (b + t)[..|a|] == b;
    assert s == (a + s)[|a|..] == (b + t)[|a|..] == t;
  }

  lemma RowOfFieldsInjective(f: seq<Bytes>, g: seq<Bytes>)
    requires RowOfFields(f).Ok? && RowOfFields(f) == RowOfFields(g)
    ensures f == g
  {
    assert Frames(f, 0).value == RowOfFields(f).value[4..];
    assert Frames(g, 0).value == RowOfFields(g).value[4..];
    FramesInjective(f, g, 0);
  }

  lemma BlockerRowInjective(a: BlockerRow, b: BlockerRow)
    requires BlockerRowBytes(a).Ok? && BlockerRowBytes(a) == BlockerRowBytes(b)
    ensures a == b
  {
    RowOfFieldsInjective(BlockerFields(a), BlockerFields(b));
    assert BlockerFields(a)[0] == BlockerFields(b)[0] && BlockerFields(a)[2] == BlockerFields(b)[2];
    assert BlockerFields(a)[1][0] == BlockerFields(b)[1][0];
  }

  lemma ReservationRowInjective(a: Reservation, b: Reservation)
    requires ReservationRowBytes(a).Ok? && ReservationRowBytes(a) == ReservationRowBytes(b)
    ensures a == b
  {
    RowOfFieldsInjective(ReservationFields(a), ReservationFields(b));
    assert ReservationFields(a)[0] == ReservationFields(b)[0] && ReservationFields(a)[1] == ReservationFields(b)[1];
    assert ReservationFields(a)[2][0] == ReservationFields(b)[2][0];
    AssetAmountBytesInjective(a.amount, b.amount);
  }

  // ----- sorted sets -----

  /** An encoded row beside the tuple it is sorted by. */
  datatype Item = Item(key: seq<Bytes>, bytes: Bytes)

  /** Tuple order: the first differing component decides. */
  predicate KeyLe(a: seq<Bytes>, b: seq<Bytes>) {
    a == [] || (b != [] && (if a[0] == b[0] then KeyLe(a[1..], b[1..]) else LexLe(a[0], b[0])))
  }

  predicate ItemLe(a: Item, b: Item) { KeyLe(a.key, b.key) }

  lemma {:induction false} KeyTotal(a: seq<Bytes>, b: seq<Bytes>)
    ensures KeyLe(a, b) || KeyLe(b, a)
  {
    if a != [] && b != [] {
      LexTotal(a[0], b[0]);
      KeyTotal(a[1..], b[1..]);
    }
  }

  lemma {:induction false} KeyTransitive(a: seq<Bytes>, b: seq<Bytes>, c: seq<Bytes>)
    requires KeyLe(a, b) && KeyLe(b, c)
    ensures KeyLe(a, c)
  {
    if a != [] {
      if a[0] == b[0] == c[0] {
        KeyTransitive(a[1..], b[1..], c[1..]);
      } else if a[0] != b[0] && b[0] != c[0] {
        LexTransitive(a[0], b[0], c[0]);
        if a[0] == c[0] { LexAntisymmetric(a[0], b[0]); }
      }
    }
  }

  lemma {:induction false} KeyAntisymmetric(a: seq<Bytes>, b: seq<Bytes>)
    requires KeyLe(a, b) && KeyLe(b, a)
    ensures a == b
  {
    if a != [] {
      if a[0] != b[0] { LexAntisymmetric(a[0], b[0]); }
      KeyAntisymmetric(a[1..], b[1..]);
      assert a == [a[0]] + a[1..] && b == [b[0]] + b[1..];
    }
  }

  lemma ItemLeIsPreorder()
    ensures TotalPreorder(ItemLe)
  {
    forall x, y ensures ItemLe(x, y) || ItemLe(y, x) { KeyTotal(x.key, y.key); }
    forall x, y, z | ItemLe(x, y) && ItemLe(y, z) ensures ItemLe(x, z) { KeyTransitive(x.key, y.key, z.key); }
  }

  function ConcatAll(rows: seq<Bytes>): Bytes {
    if rows == [] then [] else rows[0] + ConcatAll(rows[1..])
  }

  function AssembleSetBlob(rows: seq<Bytes>): Result<Bytes, DigestError> {
    if |rows| > U32_MAX then Err(TooManyRows)
    else if 4 + |ConcatAll(rows)| > U32_MAX then Err(FieldTooLong)
    else Ok(U32Be(|rows|) + ConcatAll(rows))
  }

  /** Self-delimiting rows can be read back from their concatenation. */
  lemma {:induction false} ConcatInjective(a: seq<Bytes>, b: seq<Bytes>)
    requires forall i :: 0 <= i < |a| ==> IsRow(a[i])
    requires forall i :: 0 <= i < |b| ==> IsRow(b[i])
    requires |a| == |b| && ConcatAll(a) == ConcatAll(b)
    ensures a == b
  {
    if a != [] {
      RowCut(a[0], ConcatAll(a[1..]), b[0], ConcatAll(b[1..]));
      ConcatInjective(a[1..], b[1..]);
      assert a == [a[0]] + a[1..] && b == [b[0]] + b[1..];
    }
  }

  lemma SetBlobInjective(a: seq<Bytes>, b: seq<Bytes>)
    requires forall i :: 0 <= i < |a| ==> IsRow(a[i])
    requires forall i :: 0 <= i < |b| ==> IsRow(b[i])
    requires AssembleSetBlob(a).Ok? && AssembleSetBlob(a) == AssembleSetBlob(b)
    ensures a == b
  {
    var p, q := AssembleSetBlob(a).value, AssembleSetBlob(b).value;
    assert U32Be(|a|) == p[..4] == q[..4] == U32Be(|b|);
    U32Injective(|a|, |b|);
    assert ConcatAll(a) == p[4..] == q[4..] == ConcatAll(b);
    ConcatInjective(a, b);
  }

  predicate AdjacentKeysDiffer(items: seq<Item>) {
    forall i :: 0 <= i < |items| - 1 ==> items[i].key != items[i + 1].key
  }

  function RowBytes(item: Item): Bytes { item.bytes }

  /** Sort by key, refuse ties, concatenate behind a row count. */
  function SetBlob(items: seq<Item>): Result<Bytes, DigestError> {
    var ordered := Sort(items, ItemLe);
    if !AdjacentKeysDiffer(ordered) then Err(DuplicateRow)
    else AssembleSetBlob(Map(RowBytes, ordered))
  }

  lemma AdjacentSeparates(items: seq<Item>)
    requires Sorted(items, ItemLe) && AdjacentKeysDiffer(items)
    ensures Separates(items, ItemLe)
  {
    forall i, j | 0 <= i < |items| && 0 <= j < |items| && ItemLe(items[i], items[j]) && ItemLe(items[j], items[i])
      ensures items[i] == items[j]
    {
      var lo, hi := if i < j then i else j, if i < j then j else i;
      if lo < hi {
        assert ItemLe(items[lo], items[lo + 1]) && ItemLe(items[hi], items[lo]);
        if lo + 1 < hi { assert ItemLe(items[lo + 1], items[hi]); }
        KeyTransitiveTie(items[lo].key, items[lo + 1].key, items[hi].key);
      }
    }
  }

  lemma KeyTransitiveTie(a: seq<Bytes>, b: seq<Bytes>, c: seq<Bytes>)
    requires KeyLe(a, b) && (b == c || KeyLe(b, c)) && KeyLe(c, a)
    ensures a == b
  {
    if b != c { KeyTransitive(b, c, a); }
    KeyAntisymmetric(a, b);
  }

  /** Two item lists that assemble give the same blob exactly when they hold the same rows. */
  lemma SetBlobCanonical(a: seq<Item>, b: seq<Item>)
    requires SetBlob(a).Ok? && SetBlob(b).Ok?
    requires forall i :: 0 <= i < |a| ==> IsRow(a[i].bytes)
    requires forall i :: 0 <= i < |b| ==> IsRow(b[i].bytes)
    ensures multiset(a) == multiset(b) ==> SetBlob(a) == SetBlob(b)
    ensures SetBlob(a) == SetBlob(b) ==> multiset(Map(RowBytes, a)) == multiset(Map(RowBytes, b))
  {
    var sa, sb := Sort(a, ItemLe), Sort(b, ItemLe);
    ItemLeIsPreorder();
    SortPermutes(a, ItemLe);
    SortPermutes(b, ItemLe);
    if multiset(a) == multiset(b) {
      SortSorts(a, ItemLe);
      AdjacentSeparates(sa);
      SeparatesPermutation(sa, a, ItemLe);
      SortIsCanonical(a, b, ItemLe);
    }
    if SetBlob(a) == SetBlob(b) {
      forall i | 0 <= i < |sa| ensures IsRow(Map(RowBytes, sa)[i]) { MemberOfPermutation(a, sa, sa[i]); }
      forall i | 0 <= i < |sb| ensures IsRow(Map(RowBytes, sb)[i]) { MemberOfPermutation(b, sb, sb[i]); }
      SetBlobInjective(Map(RowBytes, sa), Map(RowBytes, sb));
      MapPermutes(RowBytes, a, sa);
      MapPermutes(RowBytes, b, sb);
    }
  }

  function BlockerItem(row: BlockerRow): Item {
    var bytes := BlockerRowBytes(row);
    Item([row.recordId], if bytes.Ok? then bytes.value else [])
  }

  function ReservationItem(row: Reservation): Item {
    var bytes := ReservationRowBytes(row);
    Item(ReservationFields(row), if bytes.Ok? then bytes.value else [])
  }

  /** The first row that does not encode. */
  function FirstBlockerError(rows: seq<BlockerRow>): (e: Option<DigestError>)
    ensures e.None? <==> forall i :: 0 <= i < |rows| ==> BlockerRowBytes(rows[i]).Ok?
  {
    if rows == [] then None
    else if BlockerRowBytes(rows[0]).Err? then Some(BlockerRowBytes(rows[0]).error)
    else FirstBlockerError(rows[1..])
  }

  function FirstReservationError(rows: seq<Reservation>): (e: Option<DigestError>)
    ensures e.None? <==> forall i :: 0 <= i < |rows| ==> ReservationRowBytes(rows[i]).Ok?
  {
    if rows == [] then None
    else if ReservationRowBytes(rows[0]).Err? then Some(ReservationRowBytes(rows[0]).error)
    else FirstReservationError(rows[1..])
  }

  function DigestBlob(kind: DigestKind, blob: Result<Bytes, DigestError>): Result<Digest, DigestError> {
    if blob.Err? then Err(blob.error) else DigestOf(kind, [blob.value])
  }

  function BlockerSetDigest(rows: seq<BlockerRow>): Result<Digest, DigestError> {
    var failed := FirstBlockerError(rows);
    if failed.Some? then Err(failed.value) else DigestBlob(BlockerSet, SetBlob(Map(BlockerItem, rows)))
  }

  function ReservationLikeSetDigest(kind: DigestKind, rows: seq<Reservation>): Result<Digest, DigestError> {
    var failed := FirstReservationError(rows);
    if failed.Some? then Err(failed.value) else DigestBlob(kind, SetBlob(Map(ReservationItem, rows)))
  }

  function ReservationSetDigest(rows: seq<Reservation>): Result<Digest, DigestError> {
    ReservationLikeSetDigest(ReservationSet, rows)
  }

  function OverlapSetDigest(rows: seq<Reservation>): Result<Digest, DigestError> {
    ReservationLikeSetDigest(OverlapSet, rows)
  }

  // ----- the loops -----

  lemma {:induction false} ConcatSnoc(rows: seq<Bytes>, row: Bytes)
    ensures ConcatAll(rows + [row]) == ConcatAll(rows) + row
  {
    if rows == [] {
      assert rows + [row] == [row] && [row][1..] == [];
    } else {
      assert (rows + [row])[1..] == rows[1..] + [row];
      ConcatSnoc(rows[1..], row);
    }
  }

  /** `assemble_set_blob`: the buffer is extended row by row. */
  method BuildSetBlob(rows: seq<Bytes>) returns (r: Result<Bytes, DigestError>)
    ensures r == AssembleSetBlob(rows)
  {
    if |rows| > U32_MAX { return Err(TooManyRows); }
    var total: nat, body: Bytes := 4, [];
    for i := 0 to |rows|
      invariant body == ConcatAll(rows[..i]) && total == 4 + |body|
    {
      assert rows[..i + 1] == rows[..i] + [rows[i]];
      ConcatSnoc(rows[..i], rows[i]);
      total, body := total + |rows[i]|, body + rows[i];
    }
    assert rows[..|rows|] == rows;
    return if total > U32_MAX then Err(FieldTooLong) else Ok(U32Be(|rows|) + body);
  }

  /** Sorted, refused if neighbours tie, and assembled. */
  method BuildSortedBlob(items: seq<Item>) returns (r: Result<Bytes, DigestError>)
    ensures r == SetBlob(items)
  {
    var ordered := Sort(items, ItemLe);
    for i := 0 to |ordered|
      invariant forall k :: 0 <= k < i && k < |ordered| - 1 ==> ordered[k].key != ordered[k + 1].key
    {
      if i + 1 < |ordered| && ordered[i].key == ordered[i + 1].key { return Err(DuplicateRow); }
    }
    r := BuildSetBlob(Map(RowBytes, ordered));
  }

  lemma FirstBlockerErrorAt(rows: seq<BlockerRow>, i: nat)
    requires i < |rows| && BlockerRowBytes(rows[i]).Err? && forall k :: 0 <= k < i ==> BlockerRowBytes(rows[k]).Ok?
    ensures FirstBlockerError(rows) == Some(BlockerRowBytes(rows[i]).error)
  {
    if i > 0 { FirstBlockerErrorAt(rows[1..], i - 1); }
  }

  lemma FirstReservationErrorAt(rows: seq<Reservation>, i: nat)
    requires i < |rows| && ReservationRowBytes(rows[i]).Err? && forall k :: 0 <= k < i ==> ReservationRowBytes(rows[k]).Ok?
    ensures FirstReservationError(rows) == Some(ReservationRowBytes(rows[i]).error)
  {
    if i > 0 { FirstReservationErrorAt(rows[1..], i - 1); }
  }

  /** `blocker_set_digest` */
  method ComputeBlockerSetDigest(rows: seq<BlockerRow>) returns (r: Result<Digest, DigestError>)
    ensures r == BlockerSetDigest(rows)
  {
    var items: seq<Item> := [];
    for i := 0 to |rows|
      invariant forall k :: 0 <= k < i ==> BlockerRowBytes(rows[k]).Ok?
      invariant |items| == i && forall k :: 0 <= k < i ==> items[k] == BlockerItem(rows[k])
    {
      var bytes := BlockerRowBytes(rows[i]);
      if bytes.Err? {
        FirstBlockerErrorAt(rows, i);
        return Err(bytes.error);
      }
      items := items + [Item([rows[i].recordId], bytes.value)];
    }
    assert items == Map(BlockerItem, rows);
    var blob := BuildSortedBlob(items);
    r := DigestBlob(BlockerSet, blob);
  }

  /** `reservation_like_set_digest` */
  method ComputeReservationLikeSetDigest(kind: DigestKind, rows: seq<Reservation>) returns (r: Result<Digest, DigestError>)
    ensures r == ReservationLikeSetDigest(kind, rows)
  {
    var items: seq<Item> := [];
    for i := 0 to |rows|
      invariant forall k :: 0 <= k < i ==> ReservationRowBytes(rows[k]).Ok?
      invariant |items| == i && forall k :: 0 <= k < i ==> items[k] == ReservationItem(rows[k])
    {
      var bytes := ReservationRowBytes(rows[i]);
      if bytes.Err? {
        FirstReservationErrorAt(rows, i);
        return Err(bytes.error);
      }
      items := items + [Item(ReservationFields(rows[i]), bytes.value)];
    }
    assert items == Map(ReservationItem, rows);
    var blob := BuildSortedBlob(items);
    r := DigestBlob(kind, blob);
  }

  lemma BlockerItemSeparates(a: seq<BlockerRow>, b: seq<BlockerRow>)
    requires FirstBlockerError(a).None? && FirstBlockerError(b).None?
    ensures forall i :: 0 <= i < |a| ==> IsRow(Map(BlockerItem, a)[i].bytes)
    ensures multiset(Map(RowBytes, Map(BlockerItem, a))) == multiset(Map(RowBytes, Map(BlockerItem, b)))
      ==> multiset(a) == multiset(b)
  {
    forall i | 0 <= i < |a| ensures IsRow(Map(BlockerItem, a)[i].bytes) {
      assert RowOfFields(BlockerFields(a[i])) == Ok(BlockerItem(a[i]).bytes);
    }
    var f := (row: BlockerRow) => BlockerItem(row).bytes;
    assert Map(RowBytes, Map(BlockerItem, a)) == Map(f, a);
    assert Map(RowBytes, Map(BlockerItem, b)) == Map(f, b);
    if multiset(Map(f, a)) == multiset(Map(f, b)) {
      forall x, y | x in a && y in b && f(x) == f(y) ensures x == y {
        BlockerRowInjective(x, y);
      }
      MapReflectsPermutation(f, a, b);
    }
  }

  lemma ReservationItemSeparates(a: seq<Reservation>, b: seq<Reservation>)
    requires FirstReservationError(a).None? && FirstReservationError(b).None?
    ensures forall i :: 0 <= i < |a| ==> IsRow(Map(ReservationItem, a)[i].bytes)
    ensures multiset(Map(RowBytes, Map(ReservationItem, a))) == multiset(Map(RowBytes, Map(ReservationItem, b)))
      ==> multiset(a) == multiset(b)
  {
    forall i | 0 <= i < |a| ensures IsRow(Map(ReservationItem, a)[i].bytes) {
      assert RowOfFields(ReservationFields(a[i])) == Ok(ReservationItem(a[i]).bytes);
    }
    var f := (row: Reservation) => ReservationItem(row).bytes;
    assert Map(RowBytes, Map(ReservationItem, a)) == Map(f, a);
    assert Map(RowBytes, Map(ReservationItem, b)) == Map(f, b);
    if multiset(Map(f, a)) == multiset(Map(f, b)) {
      forall x, y | x in a && y in b && f(x) == f(y) ensures x == y {
        ReservationRowInjective(x, y);
      }
      MapReflectsPermutation(f, a, b);
    }
  }

  /** Two blocker lists that encode have the same digest exactly when one permutes the other. */
  lemma BlockerSetDigestCanonical(a: seq<BlockerRow>, b: seq<BlockerRow>)
    requires BlockerSetDigest(a).Ok? && BlockerSetDigest(b).Ok?
    ensures BlockerSetDigest(a) == BlockerSetDigest(b) <==> multiset(a) == multiset(b)
  {
    var ia, ib := Map(BlockerItem, a), Map(BlockerItem, b);
    BlockerItemSeparates(a, b);
    BlockerItemSeparates(b, a);
    SetBlobCanonical(ia, ib);
    DigestSeparates(BlockerSet, [SetBlob(ia).value], BlockerSet, [SetBlob(ib).value]);
    if multiset(a) == multiset(b) { MapPermutes(BlockerItem, a, b); }
    assert [SetBlob(ia).value] == [SetBlob(ib).value] <==> SetBlob(ia) == SetBlob(ib) by {
      assert [SetBlob(ia).value][0] == SetBlob(ia).value && [SetBlob(ib).value][0] == SetBlob(ib).value;
    }
  }

  /** The same for the reservation-like sets, whose kinds also separate their digests. */
  lemma ReservationLikeDigestCanonical(kind: DigestKind, a: seq<Reservation>, kind': DigestKind, b: seq<Reservation>)
    requires ReservationLikeSetDigest(kind, a).Ok? && ReservationLikeSetDigest(kind', b).Ok?
    ensures ReservationLikeSetDigest(kind, a) == ReservationLikeSetDigest(kind', b)
      <==> kind == kind' && multiset(a) == multiset(b)
  {
    var ia, ib := Map(ReservationItem, a), Map(ReservationItem, b);
    ReservationItemSeparates(a, b);
    ReservationItemSeparates(b, a);
    SetBlobCanonical(ia, ib);
    DigestSeparates(kind, [SetBlob(ia).value], kind', [SetBlob(ib).value]);
    if multiset(a) == multiset(b) { MapPermutes(ReservationItem, a, b); }
    assert [SetBlob(ia).value] == [SetBlob(ib).value] <==> SetBlob(ia) == SetBlob(ib) by {
      assert [SetBlob(ia).value][0] == SetBlob(ia).value && [SetBlob(ib).value][0] == SetBlob(ib).value;
    }
  }

  // ----- tickets -----

  type Workchain = w: int | -1 <= w <= 0

  datatype CanonicalAddress = CanonicalAddress(workchain: Workchain, account: Bytes32)
  {
    function DigestBytes(): Bytes {
      [if workchain < 0 then workchain + 0x100 else workchain] + account
    }
  }

  lemma AddressInjective(a: CanonicalAddress, b: CanonicalAddress)
    requires a.DigestBytes() == b.DigestBytes()
    ensures a == b
  {
    assert a.DigestBytes()[0] == b.DigestBytes()[0];
    assert a.account == a.DigestBytes()[1..] == b.DigestBytes()[1..] == b.account;
  }

  /** The ten ticket fields a risk grant is bound to. */
  datatype TicketDigestInput = TicketDigestInput(
    recordId: Bytes32, senderWalletId: Bytes, senderAddress: CanonicalAddress, networkGlobalId: I32,
    endpointIdentity: Bytes, destination: CanonicalAddress, value: AssetAmount, bounce: bool,
    authGeneration: U64, authNonce: U64)

  function TicketFields(t: TicketDigestInput): seq<Bytes> {
    [t.recordId, t.senderWalletId, t.senderAddress.DigestBytes(), I32Be(t.networkGlobalId), t.endpointIdentity,
     t.destination.DigestBytes(), AssetAmountBytes(t.value), [if t.bounce then 1 else 0],
     U64Be(t.authGeneration), U64Be(t.authNonce)]
  }

  function TicketDigest(t: TicketDigestInput): Result<Digest, DigestError> {
    DigestOf(Ticket, TicketFields(t))
  }

  lemma TicketFieldsInjective(t: TicketDigestInput, u: TicketDigestInput)
    requires TicketFields(t) == TicketFields(u)
    ensures t == u
  {
    var f, g := TicketFields(t), TicketFields(u);
    assert f[0] == g[0] && f[1] == g[1] && f[2] == g[2] && f[3] == g[3] && f[4] == g[4];
    assert f[5] == g[5] && f[6] == g[6] && f[7] == g[7] && f[8] == g[8] && f[9] == g[9];
    assert f[7][0] == g[7][0];
    AddressInjective(t.senderAddress, u.senderAddress);
    AddressInjective(t.destination, u.destination);
    I32Injective(t.networkGlobalId, u.networkGlobalId);
    AssetAmountBytesInjective(t.value, u.value);
    U64Injective(t.authGeneration, u.authGeneration);
    U64Injective(t.authNonce, u.authNonce);
  }

  /** A ticket digest pins down all ten fields. */
  lemma TicketDigestExact(t: TicketDigestInput, u: TicketDigestInput)
    requires TicketDigest(t).Ok? && TicketDigest(u).Ok?
    ensures TicketDigest(t) == TicketDigest(u) <==> t == u
  {
    DigestSeparates(Ticket, TicketFields(t), Ticket, TicketFields(u));
    if TicketFields(t) == TicketFields(u) { TicketFieldsInjective(t, u); }
  }
}
