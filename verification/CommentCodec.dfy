/** The encrypted comment as a chain of cells (crates/cc-wallet-tycho/src/encrypted_comment.rs). */
module CommentCodec {
  import opened Wrappers
  import opened Bytes

  const ENCRYPTED_COMMENT_OP := 0x4343_4531
  const ENCRYPTED_COMMENT_VERSION := 1
  const ENCRYPTED_PREFIX_BYTES := 1 + 32
  const MAX_COMMENT_BYTES := 1024
  const COMMENT_CELL_BYTES := 127
  const ROOT_BYTES := 123 - ENCRYPTED_PREFIX_BYTES - 24
  const MIN_SEALED_BYTES := 24 + 16
  /** The bytes before the ciphertext: operation, version, sender key and nonce. */
  const HEADER_BYTES := 4 + 1 + 32 + 24
  const MAX_CELL_BITS := 1023

  type SpareBits = n: int | 0 <= n < 8

  /** A cell: whole bytes, then up to seven spare bits, and references. An exotic cell has no plain slice. */
  datatype Cell = Cell(data: Bytes, spareBits: SpareBits, refs: seq<Cell>, exotic: bool)
  {
    function Bits(): nat {
      8 * |data| + spareBits
    }
  }

  datatype EncryptedComment = EncryptedComment(senderKey: Bytes32, payload: Bytes)

  datatype CommentError =
    | TooShort | OverBudget | CellOverflow | CellUnderflow | NewerVersion(version: byte) | NotWholeBytes | ExoticCell

  function Min(a: nat, b: nat): nat {
    if a < b then a else b
  }

  // ----- building -----

  /** The ciphertext beyond the root, cut into cells' worth. */
  function Chunks(rest: Bytes): (r: seq<Bytes>)
    ensures forall i :: 0 <= i < |r| ==> 0 < |r[i]| <= COMMENT_CELL_BYTES
  {
    if rest == [] then []
    else
      var n := Min(|rest|, COMMENT_CELL_BYTES);
      [rest[..n]] + Chunks(rest[n..])
  }

  /** The chain of cells holding the chunks. */
  function Chain(chunks: seq<Bytes>): Option<Cell> {
    if chunks == [] then None
    else
      var next := Chain(chunks[1..]);
      Some(Cell(chunks[0], 0, if next.Some? then [next.value] else [], false))
  }

  function Header(senderKey: Bytes32, nonce: Bytes): Bytes {
    U32Be(ENCRYPTED_COMMENT_OP) + [ENCRYPTED_COMMENT_VERSION] + senderKey + nonce
  }

  predicate Buildable(payload: Bytes) {
    MIN_SEALED_BYTES <= |payload| <= MAX_COMMENT_BYTES - ENCRYPTED_PREFIX_BYTES
  }

  /** The root holds the header and the first of the ciphertext; the rest hangs below. */
  function Encoded(senderKey: Bytes32, payload: Bytes): Cell
    requires |payload| >= 24
  {
    var ciphertext := payload[24..];
    var n := Min(|ciphertext|, ROOT_BYTES);
    var next := Chain(Chunks(ciphertext[n..]));
    Cell(Header(senderKey, payload[..24]) + ciphertext[..n], 0, if next.Some? then [next.value] else [], false)
  }

  /** The splitting loop. */
  method SplitTail(ciphertext: Bytes) returns (tail: seq<Bytes>)
    ensures tail == Chunks(ciphertext)
  {
    var rest := ciphertext;
    tail := [];
    while rest != []
      invariant tail + Chunks(rest) == Chunks(ciphertext)
      decreases |rest|
    {
      var n := Min(|rest|, COMMENT_CELL_BYTES);
      assert Chunks(rest) == [rest[..n]] + Chunks(rest[n..]);
      tail := tail + [rest[..n]];
      rest := rest[n..];
    }
  }

  /** A builder refuses more than 1023 bits. */
  function BuildCell(data: Bytes, next: Option<Cell>): (r: Result<Cell, CommentError>)
    ensures r.Ok? <==> 8 * |data| <= MAX_CELL_BITS
  {
    if 8 * |data| > MAX_CELL_BITS then Err(CellOverflow)
    else Ok(Cell(data, 0, if next.Some? then [next.value] else [], false))
  }

  /** The chain is built from its last cell. */
  method BuildChain(tail: seq<Bytes>) returns (r: Result<Option<Cell>, CommentError>)
    ensures r.Ok? <==> forall i :: 0 <= i < |tail| ==> 8 * |tail[i]| <= MAX_CELL_BITS
    ensures r.Ok? ==> r.value == Chain(tail)
  {
    var cell: Option<Cell> := None;
    for i := |tail| downto 0
      invariant cell == Chain(tail[i..]) && forall k :: i <= k < |tail| ==> 8 * |tail[k]| <= MAX_CELL_BITS
    {
      assert tail[i..][1..] == tail[i + 1..];
      var built := BuildCell(tail[i], cell);
      if built.Err? { return Err(built.error); }
      cell := Some(built.value);
    }
    assert tail[0..] == tail;
    return Ok(cell);
  }

  /** `encrypted_comment_payload`: accepts exactly the sealed blobs between a bare nonce and tag and
      the comment budget; the cell builder never refuses. */
  method EncryptedCommentPayload(senderKey: Bytes32, payload: Bytes) returns (r: Result<Cell, CommentError>)
    ensures r.Ok? <==> Buildable(payload)
    ensures r.Ok? ==> r.value == Encoded(senderKey, payload)
  {
    if |payload| < MIN_SEALED_BYTES { return Err(TooShort); }
    if ENCRYPTED_PREFIX_BYTES + |payload| > MAX_COMMENT_BYTES { return Err(OverBudget); }
    var nonce, ciphertext := payload[..24], payload[24..];
    var n := Min(|ciphertext|, ROOT_BYTES);
    var tail := SplitTail(ciphertext[n..]);
    var chain := BuildChain(tail);
    var data := U32Be(ENCRYPTED_COMMENT_OP) + [ENCRYPTED_COMMENT_VERSION] + senderKey + nonce + ciphertext[..n];
    r := if chain.Ok? then BuildCell(data, chain.value) else Err(CellOverflow);
  }

  // ----- parsing -----

  /** The cells along the first references, all plain and byte-aligned. */
  predicate Plain(cell: Cell) {
    !cell.exotic && cell.spareBits == 0 && (cell.refs != [] ==> Plain(cell.refs[0]))
  }

  /** The bytes along the first references. */
  function ChainBytes(cell: Cell): Bytes {
    cell.data + if cell.refs == [] then [] else ChainBytes(cell.refs[0])
  }

  predicate IsOurs(body: Cell) {
    !body.exotic && |body.data| >= 4 && body.data[..4] == U32Be(ENCRYPTED_COMMENT_OP)
  }

  predicate Parses(body: Cell) {
    && IsOurs(body) && |body.data| >= HEADER_BYTES && body.data[4] == ENCRYPTED_COMMENT_VERSION
    && Plain(body) && |ChainBytes(body)| >= 4 + ENCRYPTED_PREFIX_BYTES + MIN_SEALED_BYTES
  }

  /** `parse_encrypted_comment`: not a comment at all, a comment, or an error. */
  method ParseEncryptedComment(body: Cell) returns (r: Result<Option<EncryptedComment>, CommentError>)
    ensures r == Ok(None) <==> !IsOurs(body)
    ensures r.Ok? && r.value.Some? <==> Parses(body)
    ensures r.Ok? && r.value.Some? ==>
      r.value.value == EncryptedComment(body.data[5..37], ChainBytes(body)[37..])
  {
    if body.exotic || |body.data| < 4 || body.data[..4] != U32Be(ENCRYPTED_COMMENT_OP) { return Ok(None); }
    if |body.data| < 5 { return Err(CellUnderflow); }
    if body.data[4] != ENCRYPTED_COMMENT_VERSION { return Err(NewerVersion(body.data[4])); }
    if |body.data| < HEADER_BYTES { return Err(CellUnderflow); }
    var senderKey: Bytes32 := body.data[5..37];
    var collected := body.data[37..HEADER_BYTES];
    var cell: Cell, skip: nat := body, HEADER_BYTES;
    while true
      invariant skip <= |cell.data|
      invariant Plain(cell) <==> Plain(body)
      invariant skip <= |ChainBytes(cell)| && body.data[..37] + collected + ChainBytes(cell)[skip..] == ChainBytes(body)
      decreases cell
    {
      if cell.exotic { return Err(ExoticCell); }
      if cell.Bits() % 8 != 0 { return Err(NotWholeBytes); }
      collected := collected + cell.data[skip..];
      if cell.refs == [] { break; }
      assert ChainBytes(cell)[skip..] == cell.data[skip..] + ChainBytes(cell.refs[0]);
      cell, skip := cell.refs[0], 0;
    }
    assert ChainBytes(body)[37..] == collected;
    if |collected| < MIN_SEALED_BYTES { return Err(TooShort); }
    return Ok(Some(EncryptedComment(senderKey, collected)));
  }

  // ----- the round trip -----

  lemma {:induction false} ChunksJoin(rest: Bytes)
    ensures Chain(Chunks(rest)).Some? <==> rest != []
    ensures rest != [] ==> Plain(Chain(Chunks(rest)).value) && ChainBytes(Chain(Chunks(rest)).value) == rest
  {
    if rest != [] {
      var n := Min(|rest|, COMMENT_CELL_BYTES);
      ChunksJoin(rest[n..]);
      assert Chunks(rest)[1..] == Chunks(rest[n..]);
      assert rest == rest[..n] + rest[n..];
      var cell := Chain(Chunks(rest)).value;
      assert cell.data == rest[..n];
    }
  }

  /** Every cell of the chain fits, and has at most one reference. */
  predicate Fits(cell: Cell) {
    cell.Bits() <= MAX_CELL_BITS && |cell.refs| <= 1 && (cell.refs != [] ==> Fits(cell.refs[0]))
  }

  lemma {:induction false} ChainFits(chunks: seq<Bytes>)
    requires forall i :: 0 <= i < |chunks| ==> 0 < |chunks[i]| <= COMMENT_CELL_BYTES
    ensures Chain(chunks).Some? ==> Fits(Chain(chunks).value)
  {
    if chunks != [] { ChainFits(chunks[1..]); }
  }

  /** Every cell built fits 1023 bits with at most one reference. */
  lemma BuiltCellsFit(senderKey: Bytes32, payload: Bytes)
    requires |payload| >= 24
    ensures Fits(Encoded(senderKey, payload))
  {
    var ciphertext := payload[24..];
    ChainFits(Chunks(ciphertext[Min(|ciphertext|, ROOT_BYTES)..]));
  }

  /** The bytes of the built chain are the header and the sealed blob. */
  lemma EncodedBytes(senderKey: Bytes32, payload: Bytes)
    requires |payload| >= 24
    ensures Plain(Encoded(senderKey, payload))
    ensures ChainBytes(Encoded(senderKey, payload)) == U32Be(ENCRYPTED_COMMENT_OP) + [ENCRYPTED_COMMENT_VERSION] + senderKey + payload
  {
    var ciphertext := payload[24..];
    var n := Min(|ciphertext|, ROOT_BYTES);
    ChunksJoin(ciphertext[n..]);
    assert payload == payload[..24] + ciphertext[..n] + ciphertext[n..];
    var cell := Encoded(senderKey, payload);
    assert ChainBytes(cell) == cell.data + ciphertext[n..];
  }

  /** Round trip: whatever the builder accepts parses back to the same key and bytes. */
  lemma ParseOfBuilt(senderKey: Bytes32, payload: Bytes)
    requires Buildable(payload)
    ensures Parses(Encoded(senderKey, payload))
    ensures Encoded(senderKey, payload).data[5..37] == senderKey
    ensures ChainBytes(Encoded(senderKey, payload))[37..] == payload
  {
    var cell := Encoded(senderKey, payload);
    EncodedBytes(senderKey, payload);
    assert cell.data == U32Be(ENCRYPTED_COMMENT_OP) + [ENCRYPTED_COMMENT_VERSION] + senderKey + payload[..24]
                        + payload[24..][..Min(|payload| - 24, ROOT_BYTES)];
    assert cell.data[..4] == U32Be(ENCRYPTED_COMMENT_OP);
    assert cell.data[5..37] == senderKey;
  }

  /** The two methods composed. */
  method BuildThenParse(senderKey: Bytes32, payload: Bytes) returns (r: Option<EncryptedComment>)
    ensures r.Some? <==> Buildable(payload)
    ensures r.Some? ==> r.value == EncryptedComment(senderKey, payload)
  {
    var cell := EncryptedCommentPayload(senderKey, payload);
    if cell.Err? { return None; }
    ParseOfBuilt(senderKey, payload);
    var parsed := ParseEncryptedComment(cell.value);
    return parsed.value;
  }

  /** Different keys or blobs build different cells. */
  lemma EncodingIsInjective(k1: Bytes32, p1: Bytes, k2: Bytes32, p2: Bytes)
    requires Buildable(p1) && Buildable(p2) && Encoded(k1, p1) == Encoded(k2, p2)
    ensures k1 == k2 && p1 == p2
  {
    ParseOfBuilt(k1, p1);
    ParseOfBuilt(k2, p2);
  }

  /** Every chunk but the last fills its cell. */
  lemma {:induction false} ChunksAreFull(rest: Bytes)
    ensures forall i :: 0 <= i < |Chunks(rest)| - 1 ==> |Chunks(rest)[i]| == 127
    ensures |Chunks(rest)| == (|rest| + 126) / 127
  {
    if |rest| > 127 {
      ChunksAreFull(rest[127..]);
      assert Chunks(rest) == [rest[..127]] + Chunks(rest[127..]);
    } else if rest != [] {
      assert rest[|rest|..] == [] && rest[..|rest|] == rest;
      assert Chunks(rest) == [rest[..|rest|]] + Chunks(rest[|rest|..]);
    }
  }

  /** The root begins with the operation, the version, the key and the nonce, and holds 66 more bytes
      if there are that many. */
  lemma RootLayout(senderKey: Bytes32, payload: Bytes)
    requires |payload| >= 24
    ensures var root := Encoded(senderKey, payload);
      && |root.data| == 61 + Min(|payload| - 24, 66) && root.data[..5] == [0x43, 0x43, 0x45, 0x31, 1]
      && root.data[5..37] == senderKey && root.data[37..61] == payload[..24]
      && (root.refs == [] <==> |payload| <= 90)
  {
    var ciphertext := payload[24..];
    var n := Min(|ciphertext|, ROOT_BYTES);
    ChunksJoin(ciphertext[n..]);
    assert U16Be(0x4343) == [0x43, 0x43] && U16Be(0x4531) == [0x45, 0x31];
    assert U32Be(ENCRYPTED_COMMENT_OP) == [0x43, 0x43, 0x45, 0x31];
    assert Header(senderKey, payload[..24]) == [0x43, 0x43, 0x45, 0x31, 1] + senderKey + payload[..24];
  }
}
