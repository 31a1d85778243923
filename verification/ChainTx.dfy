/** Parsed transactions and messages (crates/cc-wallet-tycho/src/history.rs), and why a transaction
    failed (crates/cc-wallet-chain/src/explorer.rs). A hash that is not canonical hex is `None`. */
module ChainTx {
  import opened Wrappers
  import opened Bytes
  import opened Amounts

  datatype MsgKind = ExtIn | Int | ExtOut

  datatype Extra = Extra(id: U32, text: string)

  /** An ordered map from currency to amount text, listed in the order of its keys. */
  type ExtraMap = s: seq<Extra> | forall i, j :: 0 <= i < j < |s| ==> s[i].id < s[j].id witness []

  datatype Message = Message(
    kind: MsgKind,
    hash: Option<Bytes32>,
    src: Option<string>,
    dst: Option<string>,
    valueNative: U128,
    valueExtra: ExtraMap,
    fwdFee: U128,
    bounced: bool)

  datatype BounceOutcome = Bounced | Unaffordable

  datatype Transaction = Transaction(
    hash: Option<Bytes32>,
    lt: U64,
    now: U32,
    totalFees: U128,
    computeSuccess: bool,
    exitCode: I32,
    actionSuccess: Option<bool>,
    actionNoFunds: Option<bool>,
    actionResultCode: Option<I32>,
    bounce: Option<BounceOutcome>,
    inMsg: Option<Message>,
    outMsgs: seq<Message>)

  datatype Failure = ExitCode(code: I32) | NoFunds | ActionCode(code: I32) | ValueReturned

  function OrElse<T>(o: Option<T>, default: T): T {
    if o.Some? then o.value else default
  }

  /** The value came back to the sender whole. */
  predicate Returned(tx: Transaction) {
    tx.bounce == Some(Bounced) && tx.inMsg.Some? && tx.inMsg.value.valueExtra == []
  }

  /** `failure_reason`: no reason is success. */
  function FailureReason(tx: Transaction): (r: Option<Failure>)
    ensures r.None? <==> tx.computeSuccess && tx.actionSuccess != Some(false) && !Returned(tx)
    ensures !tx.computeSuccess ==> r == Some(ExitCode(tx.exitCode))
    ensures r == Some(NoFunds) <==> tx.computeSuccess && tx.actionSuccess == Some(false) && tx.actionNoFunds == Some(true)
    ensures r == Some(ValueReturned) <==> tx.computeSuccess && tx.actionSuccess != Some(false) && Returned(tx)
    ensures r.Some? && r.value.ActionCode? ==>
      tx.actionSuccess == Some(false) && r.value.code == (if tx.actionResultCode.Some? then tx.actionResultCode.value else 0)
  {
    if !tx.computeSuccess then Some(ExitCode(tx.exitCode))
    else if tx.actionSuccess == Some(false) then
      Some(if tx.actionNoFunds == Some(true) then NoFunds else ActionCode(OrElse(tx.actionResultCode, 0)))
    else if Returned(tx) then Some(ValueReturned)
    else None
  }

  predicate Succeeded(tx: Transaction) {
    FailureReason(tx).None?
  }
}
