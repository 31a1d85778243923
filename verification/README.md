# A verified model of the CC wallet core

This project models the parts of the wallet where a mistake costs money or the wallet itself, and
proves what they promise. `dafny verify dfyconfig.toml` checks everything; nothing here runs the
wallet.

- **Send journal** (`Delivery`, `Replay`, `JournalSafety`, `GrantFreshness`, `Envelope`, `Funding`,
  `GrantTerms`). Every record carries delivery events, a second list carries risk grants and their
  one-use consumptions, and replay merges them by sequence number through a state machine. Proved
  over all accepted journals and all their prefixes: the incremental maps are the records' latest
  evidence, blocking records number at most one plus the consumed grants, no second signing without
  a fresh one-use grant, every append succeeds exactly under local conditions although the code
  revalidates everything, and whoever signs, the balances cover all that unresolved records reserve.
- **Digests, amounts, affordability, fee ceiling** (`Digests`, `DigestExistence`, `Amounts`,
  `Decimal`, `Affordability`, `FeeCeiling`, with `Bytes`, `Sorting`, `Arith`). Set digests are
  canonical and exist exactly when stated, decimal text decides the 248-bit domain, affordability
  has a closed form, and the binary search returns the largest affordable ceiling, which then
  survives every later check.
- **Wallet file** (`Vault`, `VaultCrash`, `VaultDisk`, `VaultWriters`). `VaultCrash` is a state
  machine of the disk with a power cut after any step; `VaultDisk` and `VaultWriters` are the file
  operations, `unlock` and the writer as imperative code, proved to take only steps of that
  machine.
- **Chain layer** (`KeySealing`, `ChainTx`, `TxViews`, `TraceTree`, `TraceWalk`, `TraceFlatten`,
  `Swap`, `CommentCodec`).

Two expectations turned out not to hold of the code as it is. Each has a concrete witness and the
exact condition under which it holds:

- *The password of the last committed save always unlocks.* Between the rename of a re-key and its
  receipt it does not (`CommittedPasswordCanFail`). What holds is that exactly the password of the
  save under the main name unlocks (`CrashSafety`), hence the committed one while no attempt since
  changed it (`CommittedPasswordUnlocks`).
- *Splitting a swap gains nothing.* It can with an empty input reserve, where a quote is zero
  (`EmptyReserveSplitGains`, and exactly when: `EmptyReserveSplit`); with a positive reserve it
  never does (`SplittingGainsNothing`).

Two more hold under a condition that is stated exactly: the success flags of the two views agree
exactly when an internal message leaves or the transaction failed (`SuccessFlagsAgree`), and the
reservations built for a ticket validate exactly when the send is native or its fee ceiling is
positive (`BuiltReservationsFit`), which a ceiling chosen for a trustworthy fee always meets
(`SelectedCeilingSurvives`).

How the model represents things: SHA-256 is an injective constructor, and a file stands for its own
hash. Journals, tickets, addresses and transactions are already-typed values; a hash that is not
canonical hex is `None`. A container is its keyslot, counter, payload and size; a keyslot opens with
one password, and a fresh one is unlike any in the directory. Names of contracts and operations,
lookups, temporary names, failures and completion orders are parameters or arbitrary choices.
Directory operations reach the disk in the order they were made; a power cut leaves some directory
state since the last directory sync, with unsynced files whole or damaged.

## Model

| member | source | states |
|---|---|---|
| Delivery.StaticByEvents | crates/cc-wallet-domain/src/journal.rs:858-923 | a record is well formed exactly when it starts with Prepared, has the right shape, and every event fits its predecessor, its record and its place |
| Delivery.ValidateStatic | crates/cc-wallet-domain/src/journal.rs:858-923 | the event loop accepts exactly the well-formed records; the separate checks for a second Prepared and for events after a terminal are implied by the transitions |
| Delivery.CheckEvents | crates/cc-wallet-domain/src/journal.rs:872-921 | the loop carrying the prior sequence number and the terminal flag decides exactly that every event fits |
| Delivery.CheckEvent | crates/cc-wallet-domain/src/journal.rs:875-920 | one turn of that loop decides exactly the event's own validity, transition, binding and increasing sequence number |
| Delivery.SecondPrepared | crates/cc-wallet-domain/src/journal.rs:859-870 | finds a Prepared event after the first exactly when there is one |
| Delivery.TransitionsNeverRestart | crates/cc-wallet-domain/src/journal.rs:935-981 | no transition leaves a terminal state or leads back to Prepared |
| Delivery.TransitionsAreTheGrammar | crates/cc-wallet-domain/src/journal.rs:935-981 | the pairwise transition check accepts exactly the delivery grammar: Prepared, then NotBroadcast or attempts 1..k, then an aftermath bearing attempt k |
| Delivery.GrammarBounds | crates/cc-wallet-domain/src/journal.rs:935-981 | a run of k attempts has at most k+4 events, one Prepared, and nothing after a terminal |
| Delivery.BoundExactly | crates/cc-wallet-domain/src/journal.rs:884-906 | evidence is bound to a record exactly when the route it bears is the frozen one and the report it bears is by the ticket's endpoint, of its sender and message |
| Delivery.AcceptedEventIsBound | crates/cc-wallet-domain/src/journal.rs:858-923 | every event of an accepted record bears the record's route or reports on its message with the outcome its name says, and attempts are numbered between one and the event's place |
| Delivery.TerminalMeansResolved | crates/cc-wallet-domain/src/journal.rs:586-606 | terminal evidence is exactly the evidence that stops a record from blocking, and every kind has its published code |
| Delivery.FeeRuleCovers | crates/cc-wallet-domain/src/journal.rs:372-384 | an accepted ceiling covers the estimate within the cap and overstates it by at most the headroom unless it is the cap; nothing else is asked |
| Replay.CollectSelected | crates/cc-wallet-domain/src/journal.rs:1228-1289 | the loop over a record map yields the blocker rows and outstanding reservations of the selected records; which rows those are is `Funding.OutstandingRows` and `GrantFreshness.BlockersMember` |
| Replay.StepMethod | crates/cc-wallet-domain/src/journal.rs:1103-1220 | one event of the replay, loops included, computes the specified next state or the specified error |
| Replay.ValidateRecords | crates/cc-wallet-domain/src/journal.rs:1059-1071 | accepts exactly record lists that are each well formed, distinct in id and of one signing scope |
| Replay.CheckSequence | crates/cc-wallet-domain/src/journal.rs:1073-1095 | accepts exactly merged streams numbered 1, 2, 3, ... without gap or repetition |
| Replay.ValidateReplay | crates/cc-wallet-domain/src/journal.rs:1055-1226 | accepts exactly the journals whose records are well formed, whose merged stream is contiguous and replays to a state with no consumption pending; otherwise reports the replay's own error |
| Funding.OutstandingRows | crates/cc-wallet-domain/src/journal.rs:1171-1177 | a row is outstanding exactly as often as the still-blocking records of the scope reserve it, whatever the order of the map |
| Funding.OutstandingUnits | crates/cc-wallet-domain/src/journal.rs:1171-1177 | the outstanding units of an asset beyond an overlap are the sum of what the still-blocking records hold of it |
| Funding.OutstandingMember | crates/cc-wallet-domain/src/journal.rs:1171-1177 | at every prefix of an accepted journal a row is outstanding exactly when some record whose last event is not final reserves it |
| Funding.OutstandingDistinct | crates/cc-wallet-domain/src/journal.rs:774-823 | at every prefix no reservation is outstanding twice, and every outstanding fee is native |
| Funding.PreparedIsFunded | crates/cc-wallet-domain/src/journal.rs:1171-1198 | at every Prepared, ordinary or granted, the balances cover for every asset what all unresolved records reserve beyond the authorized overlap plus the record's own reservations |
| Funding.FundedExact | crates/cc-wallet-domain/src/journal.rs:1171-1198 | the funds check passes exactly when balances name each asset once, the overlap is a set of rows that unresolved records reserve, and that inequality holds for every asset |
| Funding.ReservesSendPlusFee | crates/cc-wallet-domain/src/journal.rs:774-823 | a record reserves of every asset exactly what it sends of it plus, in native units, its fee ceiling |
| Funding.OneSigner | crates/cc-wallet-domain/src/journal.rs:1059-1067 | all records of an accepted journal have one wallet, one sender address and one network |
| Funding.TicketBinding | crates/cc-wallet-domain/src/journal.rs:194-211 | two tickets have one digest exactly when the ten signed fields agree, whatever their comment and sealing key |
| JournalSafety.ReplayTracksRecords | crates/cc-wallet-domain/src/journal.rs:1097-1226 | at every prefix of an accepted journal the replay's active and blocking maps are each record's latest evidence so far |
| JournalSafety.BlockingIsLatestEvidence | crates/cc-wallet-domain/src/journal.rs:1097-1226 | at every prefix, a record is in the incremental blocking map exactly when its latest evidence so far is blocking |
| JournalSafety.DeliveryWasBlocking | crates/cc-wallet-domain/src/journal.rs:848-850 | a delivery event only ever continues a record that was still blocking, by a valid transition: a resolved record never blocks again |
| JournalSafety.BlockersArePaidFor | crates/cc-wallet-domain/src/journal.rs:1097-1226 | at every prefix, simultaneously blocking records number at most one plus the consumed grants |
| JournalSafety.ConsumptionsSpendNonces | crates/cc-wallet-domain/src/journal.rs:1132-1144 | the consumed set has exactly one nonce per consumption event so far |
| JournalSafety.SecondSigningIsGranted | crates/cc-wallet-domain/src/journal.rs:1147-1170 | a record prepared while another still blocks directly follows the consumption that names it |
| JournalSafety.OrdinaryWhileIdle | crates/cc-wallet-domain/src/journal.rs:1160-1169 | a record prepared without a pending consumption is prepared while nothing blocks |
| JournalSafety.ScopeQueryMatchesReplay | crates/cc-wallet-domain/src/envelope.rs:107-121 | the scope query over the records returns exactly the records in the replay's final blocking map |
| GrantFreshness.EqualDigestsEqualMaps | crates/cc-wallet-domain/src/journal.rs:1228-1289 | equal blocker-set digests at two prefixes mean equal blocking maps there |
| GrantFreshness.BlockersMember | crates/cc-wallet-domain/src/journal.rs:1234-1242 | a blocker row is listed exactly when it is a selected record's id, latest tag and message hash |
| GrantFreshness.NonceSpentOnce | crates/cc-wallet-domain/src/journal.rs:1132-1144 | no two consumption events carry the same nonce |
| GrantFreshness.ConsumptionIsAdjacent | crates/cc-wallet-domain/src/journal.rs:1103-1170 | every consumption is immediately followed by the Prepared whose id and ticket digest it names, and is never last |
| GrantFreshness.GrantIsFresh | crates/cc-wallet-domain/src/risk.rs:61-65 | every consumption spends an earlier grant that authorizes it, and blocker rows and reservations at the grant equal those at the use |
| GrantFreshness.TransitionsClimb | crates/cc-wallet-domain/src/journal.rs:935-981 | every transition raises the evidence rank except one attempt after another |
| GrantFreshness.OnlyRetriesInBetween | crates/cc-wallet-domain/src/journal.rs:1103-1170 | between a grant and its use, an event on a record blocking at the grant is an attempt retry |
| GrantFreshness.UsesAreFresh | crates/cc-wallet-domain/src/journal.rs:1103-1170 | the grant-freshness law in one statement: same blocking records at grant and use, and only retries on them in between |
| GrantTerms.GrantOldStateExact | crates/cc-wallet-domain/src/journal.rs:1228-1251 | a grant passes exactly when something blocks and its two digests are those of all that blocks and all that is reserved |
| GrantTerms.GrantStateExact | crates/cc-wallet-domain/src/journal.rs:1253-1289 | a use passes exactly when that still holds in the new record's scope, the overlap is outstanding and the one granted, and the ticket and record are the ones granted |
| GrantTerms.AuthorizesOneConsumption | crates/cc-wallet-domain/src/risk.rs:61-65 | a grant authorizes exactly the one consumption that names its nonce, record and ticket |
| GrantTerms.UsedGrantTerms | crates/cc-wallet-domain/src/journal.rs:1103-1170 | signing past a blocker, term by term: grant, consumption and record agree on nonce, record id and ticket digest, the version is 1, and the waived rows are the granted ones and reserved by unresolved records |
| GrantTerms.StateDigestsExist | crates/cc-wallet-domain/src/journal.rs:1234-1249 | up to thirteen million records, what blocks and what is reserved has digests at every prefix |
| GrantTerms.GrantIsAvailable | crates/cc-wallet-domain/src/envelope.rs:174-183 | while something blocks, a grant naming it exists and is accepted under any unused nonce |
| Envelope.PendingExactlyAfterConsumption | crates/cc-wallet-domain/src/journal.rs:1222-1224 | a consumption is pending at a prefix exactly when the prefix ends in one |
| Envelope.PrefixIsJournal | crates/cc-wallet-domain/src/journal.rs:1055-1226 | cutting an accepted journal at any point gives an accepted journal exactly when the cut does not end in a consumption, with exactly the prefix as its stream |
| Envelope.AppendDeliveryExact | crates/cc-wallet-domain/src/journal.rs:1309-1321 | on an accepted journal, full revalidation after appending evidence succeeds exactly when the record-local checks do |
| Envelope.AppendPreparedExact | crates/cc-wallet-domain/src/envelope.rs:147-154 | on an accepted journal, full revalidation after appending a record succeeds exactly when nothing blocks, id and scope fit, no overlap is claimed and the balances cover the request |
| Envelope.AppendGrantExact | crates/cc-wallet-domain/src/envelope.rs:174-183 | a grant is accepted exactly when its warning version is supported, it names what blocks now and its nonce is new |
| Envelope.AppendUseExact | crates/cc-wallet-domain/src/envelope.rs:185-204 | signing past a blocker is accepted exactly with an unspent authorizing grant that still describes what blocks and names this ticket and overlap, and with funds |
| Envelope.JournalEnvelope.Empty | crates/cc-wallet-domain/src/envelope.rs:94-99 | the empty envelope is an accepted journal |
| Envelope.JournalEnvelope.Decode | crates/cc-wallet-domain/src/envelope.rs:133-145 | decoding accepts exactly the accepted journals and changes nothing in them |
| Envelope.JournalEnvelope.NextSequence | crates/cc-wallet-domain/src/envelope.rs:206-222 | the maximum over all events plus one is the length of the stream plus one, or an overflow error exactly beyond 64 bits |
| Envelope.JournalEnvelope.LargestDelivery | crates/cc-wallet-domain/src/envelope.rs:206-222 | the largest sequence number among delivery events, inside the stream |
| Envelope.JournalEnvelope.LargestRisk | crates/cc-wallet-domain/src/envelope.rs:206-222 | the largest sequence number once risk events are included, inside the stream |
| Envelope.JournalEnvelope.LargestIn | crates/cc-wallet-domain/src/envelope.rs:206-222 | the largest sequence number of one record's events and the running maximum |
| Envelope.JournalEnvelope.AppendPrepared | crates/cc-wallet-domain/src/envelope.rs:147-154 | the journal stays accepted; it succeeds exactly under the local conditions and then gains exactly that record; on error nothing changes |
| Envelope.JournalEnvelope.AppendDelivery | crates/cc-wallet-domain/src/envelope.rs:156-172 | the journal stays accepted; it succeeds exactly when the record exists and the evidence may follow, and then gains exactly that event; on error nothing changes |
| Envelope.JournalEnvelope.AppendRiskGrant | crates/cc-wallet-domain/src/envelope.rs:174-183 | the journal stays accepted; it succeeds exactly for a current grant with a new nonce, and then gains exactly that event |
| Envelope.JournalEnvelope.AppendConsumptionAndPrepared | crates/cc-wallet-domain/src/envelope.rs:185-204 | both events are appended or neither; it succeeds exactly under the conditions for signing past a blocker |
| Digests.FramesInjective | crates/cc-wallet-domain/src/digest.rs:59-66 | framing loses nothing: the number of fields and every field can be read back from the frames |
| Digests.HashFields | crates/cc-wallet-domain/src/digest.rs:105-116 | the hasher's loop feeds exactly the header and one frame per field, or fails exactly when a field or the field count is too long |
| Digests.DigestSeparates | crates/cc-wallet-domain/src/digest.rs:105-116 | two digests are equal exactly when their kinds and field lists are: kinds never coincide |
| Digests.AssetAmountBytesInjective | crates/cc-wallet-domain/src/digest.rs:72-103 | amounts with equal encodings are equal |
| Digests.BlockerRowInjective | crates/cc-wallet-domain/src/digest.rs:177-189 | blocker rows with equal encodings are equal |
| Digests.ReservationRowInjective | crates/cc-wallet-domain/src/digest.rs:191-203 | reservation rows with equal encodings are equal |
| Digests.BuildSetBlob | crates/cc-wallet-domain/src/digest.rs:281-302 | the loop extending the buffer computes the specified blob, with exactly the specified refusals |
| Digests.BuildSortedBlob | crates/cc-wallet-domain/src/digest.rs:310-316 | sorting, the neighbour check and assembly together compute the specified set blob |
| Digests.SetBlobCanonical | crates/cc-wallet-domain/src/digest.rs:281-350 | permuted item lists give one blob, and one blob comes only from lists with the same rows |
| Digests.ComputeBlockerSetDigest | crates/cc-wallet-domain/src/digest.rs:304-317 | the imperative computation equals the specified digest, including which row's error is reported |
| Digests.ComputeReservationLikeSetDigest | crates/cc-wallet-domain/src/digest.rs:329-350 | the imperative computation equals the specified digest, including which row's error is reported |
| Digests.BlockerSetDigestCanonical | crates/cc-wallet-domain/src/digest.rs:304-317 | two encodable blocker lists have equal digests exactly when one is a permutation of the other |
| Digests.ReservationLikeDigestCanonical | crates/cc-wallet-domain/src/digest.rs:329-350 | two encodable reservation-like lists have equal digests exactly when their kinds agree and one is a permutation of the other |
| Digests.TicketDigestExact | crates/cc-wallet-domain/src/digest.rs:385-407 | two ticket digests are equal exactly when all ten digested fields are |
| DigestExistence.BlockerSetDigestExists | crates/cc-wallet-domain/src/digest.rs:304-317 | a blocker set has a digest exactly when every row blocks, no record occurs twice, and 4 plus 87 bytes a row fit 32 bits |
| DigestExistence.ReservationSetDigestExists | crates/cc-wallet-domain/src/digest.rs:329-350 | a reservation-like set has a digest exactly when no row occurs twice, every fee row is native, and the rows' bytes fit 32 bits |
| DigestExistence.BlockersOfOrdinarySize | crates/cc-wallet-domain/src/digest.rs:292-302 | distinct blocking rows have a digest exactly up to 49,367,440 of them |
| DigestExistence.ReservationsOfOrdinarySize | crates/cc-wallet-domain/src/digest.rs:292-302 | up to 26,512,143 distinct rows with native fees always have a digest |
| DigestExistence.TicketDigestExists | crates/cc-wallet-domain/src/digest.rs:385-407 | a ticket has a digest exactly when its wallet id and endpoint fit 32 bits |
| DigestExistence.SetBlobExists | crates/cc-wallet-domain/src/digest.rs:281-317 | rows assemble exactly when no two share a key and their bytes with the count fit 32 bits |
| DigestExistence.BlobIsAscending | crates/cc-wallet-domain/src/digest.rs:281-317 | the hashed blob is the row count followed by the rows by ascending record id |
| DigestExistence.BlockerRowLayout | crates/cc-wallet-domain/src/digest.rs:177-189 | the 87 bytes of a blocker row, one by one |
| DigestExistence.ReservationRowLayout | crates/cc-wallet-domain/src/digest.rs:191-203 | the bytes of a reservation row, one by one |
| DigestExistence.AmountGoldens | crates/cc-wallet-domain/src/digest.rs:72-103 | the encodings of one native unit and of one unit of currency 2 |
| Bytes.LexDecides | crates/cc-wallet-domain/src/digest.rs:310-312 | in the order of byte strings the first differing byte decides |
| Bytes.U32IsBigEndian | crates/cc-wallet-domain/src/digest.rs:59-66 | lengths and counts are written most significant byte first |
| Bytes.U64IsBigEndian | crates/cc-wallet-domain/src/digest.rs:385-407 | 64-bit fields are written most significant byte first |
| Bytes.I32IsBigEndian | crates/cc-wallet-domain/src/digest.rs:385-407 | the signed network id is written in two's complement, most significant byte first |
| Affordability.IndexByAsset | crates/cc-wallet-domain/src/affordability.rs:123-135 | the index is built exactly when no asset repeats, and then answers every asset's units |
| Affordability.EvaluateAsset | crates/cc-wallet-domain/src/affordability.rs:173-244 | one asset's outcome: sufficiency, worst case, reserved and available amounts as unbounded sums, and as components exactly the amounts of the unwaived rows of the asset, of either kind, each as often as it occurs |
| Affordability.OneMoreRow | crates/cc-wallet-domain/src/affordability.rs:186-196 | one more row counts exactly its units, of either kind, when it is of the asset and not waived, and nothing otherwise |
| Affordability.RowLowersHeadroom | crates/cc-wallet-domain/src/affordability.rs:186-231 | an unwaived row of either kind lowers what can be requested of its asset by exactly its units, and of no other |
| Affordability.WaivedRowIsFree | crates/cc-wallet-domain/src/affordability.rs:192-195 | a waived row changes no asset's verdict |
| Affordability.EvaluateRelevant | crates/cc-wallet-domain/src/affordability.rs:164-244 | one outcome per relevant asset, in ascending order, each agreeing with the closed form |
| Affordability.EvaluateAffordability | crates/cc-wallet-domain/src/affordability.rs:143-247 | succeeds exactly on consistent inputs; the report is affordable exactly when, for every asset, unwaived reservations plus request are at most the balance |
| Affordability.ReportDecides | crates/cc-wallet-domain/src/affordability.rs:71-73 | assets outside the report need nothing, so its verdict is the closed form over all assets |
| Affordability.VerdictIgnoresOrder | crates/cc-wallet-domain/src/affordability.rs:143-247 | permuting balances, reservations, overlap or request changes neither acceptance nor verdict |
| Affordability.VerdictIsMonotone | crates/cc-wallet-domain/src/affordability.rs:143-247 | more balance, more overlap or a smaller request never turns an affordable send away |
| Amounts.CheckedAdd | crates/cc-wallet-domain/src/amount.rs:310-325 | addition succeeds exactly for one asset inside its domain, and is then exact |
| Amounts.CheckedSub | crates/cc-wallet-domain/src/amount.rs:327-342 | subtraction succeeds exactly for one asset without underflow, and is then exact |
| Amounts.ToAmount | crates/cc-wallet-domain/src/affordability.rs:103-121 | an unbounded sum becomes an amount exactly inside the asset's domain |
| FeeCeiling.AffordableIsAntitone | crates/cc-wallet-chain/src/wallet_service.rs:2137-2163 | raising the ceiling never makes a send affordable |
| FeeCeiling.AffordableTicketReservations | crates/cc-wallet-chain/src/wallet_service.rs:2137-2163 | for a ceiling in domain and consistent inputs, the reservations exactly when they are affordable; otherwise the right error |
| FeeCeiling.SelectAffordableFeeCeiling | crates/cc-wallet-chain/src/wallet_service.rs:2165-2219 | the binary search terminates and succeeds exactly when the exact fee is affordable and the desired ceiling in domain, and then returns the largest affordable ceiling in the range |
| FeeCeiling.ChosenCeilingObeysFeeRule | crates/cc-wallet-chain/src/wallet_service.rs:662-683 | a ceiling between a trustworthy fee and its headroom passes the provenance fee rule |
| FeeCeiling.BuiltReservationsFit | crates/cc-wallet-domain/src/journal.rs:774-823 | the reservations built for a ticket pass validation exactly when the send is native or the ceiling positive |
| FeeCeiling.SelectedCeilingSurvives | crates/cc-wallet-domain/src/journal.rs:1171-1198 | a record prepared with the selected ceiling passes the fee rule, the shape check and the replay's affordability check against the same reservations in any order |
| Decimal.TextOrderIsNumeric | crates/cc-wallet-domain/src/amount.rs:208-223 | between digit strings of one length, text order is numeric order |
| Decimal.CcMaxDecimalValue | crates/cc-wallet-domain/src/amount.rs:125-126 | the 75-digit constant is 2^248 - 1 |
| Decimal.CcFromDecimalExact | crates/cc-wallet-domain/src/amount.rs:208-223 | the digit count and the text comparison accept exactly the canonical decimals below 2^248, with their value |
| Decimal.NativeFromDecimalExact | crates/cc-wallet-domain/src/amount.rs:178-190 | accepts exactly the canonical decimals of the 120-bit domain, with their value |
| Decimal.PrecheckIsImplied | crates/cc-wallet-domain/src/amount.rs:14-85 | the length precheck on the whole part refuses nothing that would fit the domain |
| Decimal.ParseSendAmountExact | crates/cc-wallet-domain/src/amount.rs:14-85 | a text is accepted exactly when it is well formed and denotes a positive amount in the domain of a sendable asset, which is the result |
| Decimal.WellFormedIsGrammar | crates/cc-wallet-domain/src/amount.rs:14-85 | a send amount is a canonical whole number, or one followed by a dot and one to nine digits |
| Decimal.DottedValue | crates/cc-wallet-domain/src/amount.rs:14-85 | a dotted text denotes its whole part times 10^9 plus its fraction scaled to nine digits |
| Decimal.WholeValue | crates/cc-wallet-domain/src/amount.rs:14-85 | a text without a dot denotes its number times 10^9 |
| Decimal.FormatDenotes | crates/cc-wallet-domain/src/amount.rs:87-107 | the fixed-9 text of any amount is well formed and denotes it |
| Decimal.FormatThenParse | crates/cc-wallet-domain/src/amount.rs:87-107 | parsing the fixed-9 text of any nonzero sendable amount returns that amount |
| Decimal.ParseThenFormat | crates/cc-wallet-domain/src/amount.rs:14-107 | formatting an accepted text only pads its fraction to nine digits |
| Vault.VaultStore.OpenCandidates | crates/cc-wallet-storage/src/vault_store.rs:907-956 | the loop finds the considered candidates that open and the keyslots visible among them; which candidates those are is `Vault.NewestIsNoOlder` |
| Vault.VaultStore.RetainGeneration | crates/cc-wallet-storage/src/vault_store.rs:964-976 | keeps exactly the candidates of the main file's keyslot |
| Vault.VaultStore.AllSame | crates/cc-wallet-storage/src/vault_store.rs:977-981 | the neighbour comparison finds a difference exactly when two keyslots differ |
| Vault.VaultStore.PickNewest | crates/cc-wallet-storage/src/vault_store.rs:993-1009 | the first candidate with the largest counter, and whether a different file shares that counter |
| Vault.VaultStore.Select | crates/cc-wallet-storage/src/vault_store.rs:892-1009 | succeeds exactly on unlockable directories, for any listing order, and names the newest eligible save, the main file if it is one; no ordinary save is newer, and another file than the main one is named only if it is small and of ordinary derivation cost |
| Vault.NewestIsNoOlder | crates/cc-wallet-storage/src/vault_store.rs:912-962 | no save of at most 33554432 bytes with an ordinary keyslot of the main generation is newer than the selected one, and an oversized or costly file beside the main one is never selected |
| Vault.RecoversWithoutMain | crates/cc-wallet-storage/src/vault_store.rs:964-1009 | without a main file, an ordinary save unlocks as long as one key generation is shown and no counter is ambiguous |
| Vault.MainUnlocks | crates/cc-wallet-storage/src/vault_store.rs:958-976 | with a main file and no ambiguous counter, exactly its password unlocks |
| Vault.VaultStore.Unlock | crates/cc-wallet-storage/src/vault_store.rs:892-1047 | when no step fails, succeeds exactly on unlockable directories; then the main file holds the newest eligible save with a counter no ordinary save exceeds, and no other file changed but a promoted temporary; a refusal changes nothing |
| Vault.UnlockSettles | crates/cc-wallet-storage/src/vault_store.rs:1011-1035 | the directory an unlock leaves unlocks again with the same save, now the main file |
| VaultCrash.HealthyUnlocks | crates/cc-wallet-storage/src/vault_store.rs:892-1047 | in a healthy directory exactly the main file's password unlocks, and gives the last receipt's save or a later attempt |
| VaultCrash.StepKeeps | crates/cc-wallet-storage/src/atomic.rs:89-137 | every step of saving, re-keying, promoting, quarantining, shredding, failing, dying and losing power keeps the invariant |
| VaultCrash.CrashSafety | crates/cc-wallet-storage/src/atomic.rs:89-137 | over every run, whatever a power cut leaves after a consumed receipt: the wallet unlocks with exactly the password of the save under the main name, with a counter at least the receipt's, and holds that save or one attempted since |
| VaultCrash.CommittedPasswordUnlocks | crates/cc-wallet-storage/src/vault_store.rs:892-1047 | as long as no attempt since the receipt changed the password, the committed password unlocks after any crash |
| VaultCrash.OneSaveInFlight | crates/cc-wallet-storage/src/vault_store.rs:604-682 | within the session that consumed the receipt, the only attempt since is the one save in flight |
| VaultCrash.RekeyRunIsRun | crates/cc-wallet-storage/src/atomic.rs:89-137 | creating a wallet and re-keying it up to the rename is a run of the model |
| VaultCrash.CommittedPasswordCanFail | crates/cc-wallet-storage/src/vault_store.rs:958-962 | counterexample: between a re-key's rename and its receipt the committed password unlocks nothing, while the new one does |
| VaultDisk.Disk.WriteTemp | crates/cc-wallet-storage/src/atomic.rs:95-113 | creating, filling, syncing and reading back the temporary, with a failure at any point, is a path of the crash model and touches only the temporary |
| VaultDisk.Disk.Abandon | crates/cc-wallet-storage/src/atomic.rs:89-137 | dropping the temporary of a failed write, or failing to, is a step of the crash model |
| VaultDisk.Disk.RenameAndSync | crates/cc-wallet-storage/src/atomic.rs:115-136 | the rename replaces exactly the target and the temporary, and is durable exactly when the directory sync succeeds; either way a path of the crash model |
| VaultDisk.Disk.WriteAtomic | crates/cc-wallet-storage/src/atomic.rs:81-137 | success leaves the file durably under the target and nothing else changed; failure leaves the target as before or holding the file; every execution is a path of the crash model |
| VaultDisk.Disk.InstallOrphanCopy | crates/cc-wallet-storage/src/atomic.rs:150-221 | an equal copy is only made durable, a different one is never touched, otherwise the copy is added; every execution is a path of the crash model |
| VaultDisk.Disk.UnlockWallet | crates/cc-wallet-storage/src/vault_store.rs:892-1047 | unlock with every failure point: success needs an unlockable directory and leaves the selected save newest under the main name; a refusal changes nothing, a failed promotion only the main file and a temporary; every execution is a path of the crash model |
| VaultDisk.InterruptedSaveWins | crates/cc-wallet-storage/src/vault_store.rs:892-1009 | a whole temporary one save ahead of the main file, under its keyslot, is the one and only save an unlock selects |
| VaultDisk.Disk.RecoverInterruptedSave | crates/cc-wallet-storage/src/atomic.rs:95-113 | after the temporary of an ordinary save is written and synced, unlocking with the main keyslot's password selects that save |
| VaultDisk.Disk.DropWinner | crates/cc-wallet-storage/src/vault_store.rs:1029-1035 | removing a promoted temporary, or failing to, is a step of the crash model |
| VaultDisk.Disk.PromoteWinner | crates/cc-wallet-storage/src/vault_store.rs:1011-1035 | promotion by an atomic write, the readback and the removal of the temporary, each possibly failing, is a path of the crash model |
| VaultDisk.PromotedIsNewest | crates/cc-wallet-storage/src/vault_store.rs:1011-1035 | after a promotion the main file is the newest eligible save, whether or not the winner's file was removed |
| VaultDisk.RunReaches | crates/cc-wallet-storage/src/atomic.rs:89-137 | what the file operations do extends any run of the crash model, so its invariant holds afterwards |
| VaultWriters.WriterRuns | crates/cc-wallet-storage/src/vault_store.rs:594-719 | over every run of one writer the committed counter rises by exactly one per matching receipt and never otherwise, and an unhealthy writer neither recovers nor changes |
| VaultWriters.OnePending | crates/cc-wallet-storage/src/vault_store.rs:604-682 | between two reservations a matching receipt was consumed: at most one write is pending |
| VaultWriters.VaultWriter.PoisonWriter | crates/cc-wallet-storage/src/vault_store.rs:594-602 | refused exactly while a write is pending; otherwise the writer is unhealthy |
| VaultWriters.VaultWriter.Prepare | crates/cc-wallet-storage/src/vault_store.rs:604-682 | reserves the next counter exactly when the writer is at rest and the directory is as it left it; a refusal changes nothing |
| VaultWriters.VaultWriter.ConsumeResult | crates/cc-wallet-storage/src/vault_store.rs:684-712 | commits exactly the receipt equal to the reservation; anything else ends the writer |
| VaultWriters.VaultWriter.ConsumeJoinFailure | crates/cc-wallet-storage/src/vault_store.rs:714-719 | drops the pending write and ends the writer |
| VaultWriters.VaultWriter.SaveSync | crates/cc-wallet-storage/src/vault_store.rs:721-732 | succeeds exactly when preparing is allowed and no step fails; says what becomes of the writer and the directory, and that the crash model allows it |
| VaultWriters.Execute | crates/cc-wallet-storage/src/vault_store.rs:471-495 | a receipt is issued exactly when the sealed counter is the reserved one and the install and its readback succeed; otherwise the main file is as before or the new save |
| VaultWriters.OpenFresh | crates/cc-wallet-storage/src/vault_store.rs:530-556 | a fresh writer starts exactly beside no file at all |
| VaultWriters.OpenAuthenticated | crates/cc-wallet-storage/src/vault_store.rs:558-580 | a writer for a selected save starts exactly while the main file still is that save |
| VaultWriters.InstalledCountersIncrease | crates/cc-wallet-storage/src/vault_store.rs:529-732 | with any number of writers saving and unlocking in turn, the main file only ever changes to a strictly larger counter |
| VaultWriters.NoLostUpdate | crates/cc-wallet-storage/src/vault_store.rs:621-654 | the save a writer replaces is one it selected or installed itself, and nobody touched the main file since; a first save meets an empty directory |
| VaultWriters.StaleForever | crates/cc-wallet-storage/src/vault_store.rs:621-633 | once another save is installed, a writer that does not unlock again never writes again |
| KeySealing.RunIsExclusive | crates/cc-wallet-chain/src/wallet_service.rs:1188-1208 | in every reachable state only the lock's owner is inside a locked region, and cached keys belong to their seed |
| KeySealing.SealThenClear | crates/cc-wallet-chain/src/wallet_service.rs:1188-1216 | after a seal and a later clearing step, in any interleaving, the cache is empty and no call can insert, until an unseal |
| KeySealing.CompletedClearCleared | crates/cc-wallet-chain/src/wallet_service.rs:1755-1765 | a completed clear went through its clearing step after it was started |
| KeySealing.SealedCacheStaysEmpty | crates/cc-wallet-chain/src/wallet_service.rs:1188-1216 | once a seal and a later clear have completed, the key cache is empty and stays empty until an unseal |
| KeySealing.SealedCallsAreRefused | crates/cc-wallet-chain/src/wallet_service.rs:1188-1191 | a call begun while sealed returns no key until an unseal |
| KeySealing.KeysMatchSeed | crates/cc-wallet-chain/src/wallet_service.rs:1188-1208 | whatever other calls do meanwhile, a call only returns its own seed's keys |
| KeySealing.CachedSeedIsReturned | crates/cc-wallet-chain/src/wallet_service.rs:1193-1200 | looking up a cached seed returns its key at once, and any other seed goes on to be derived |
| KeySealing.InsertedKeyIsReturned | crates/cc-wallet-chain/src/wallet_service.rs:1201-1207 | an inserted key is the one returned, and is cached for the next call |
| KeySealing.RefusedMeansSealed | crates/cc-wallet-chain/src/wallet_service.rs:1188-1208 | a call is refused for being locked only if the service was sealed while it was under way |
| KeySealing.ClearThenSealIsNotEnough | crates/cc-wallet-chain/src/wallet_service.rs:1202-1207 | from any state at rest, sealing without a later clear can leave a key in the sealed cache |
| ChainTx.FailureReason | crates/cc-wallet-chain/src/explorer.rs:60-79 | there is no reason exactly when the compute phase succeeded, the action phase did not fail and the value was not returned; otherwise which reason, in that order |
| TxViews.ListExtras | crates/cc-wallet-chain/src/activity.rs:144-155 | lists exactly the nonzero extra currencies in order, or refuses exactly when one is malformed or out of domain |
| TxViews.MessageMovements | crates/cc-wallet-chain/src/activity.rs:142-165 | refused exactly when an amount is malformed or out of domain; otherwise the specified list |
| TxViews.MovementListCarries | crates/cc-wallet-chain/src/activity.rs:142-165 | the list names each asset once, sums to what the message carries of every asset, and has no zero line beside another |
| TxViews.AddMessage | crates/cc-wallet-chain/src/explorer.rs:169-188 | adds a message's lines to the totals, refusing exactly when a total leaves its domain |
| TxViews.SumMovements | crates/cc-wallet-chain/src/explorer.rs:166-189 | refused exactly when a message is malformed or some asset's total leaves its domain |
| TxViews.AddLinesExact | crates/cc-wallet-chain/src/explorer.rs:166-189 | adding up succeeds exactly when every asset's total is in its domain, whatever the order, and then lists each asset once with its total |
| TxViews.CollectOutgoing | crates/cc-wallet-chain/src/activity.rs:31-63 | one event per internal message, the first also bearing the transaction's fees; refused exactly when some event does not fit |
| TxViews.ActivityTells | crates/cc-wallet-chain/src/activity.rs:12-132 | direction, counterparty, hashes, fee, movements and success of every event, over the transaction's own fields |
| TxViews.InternalExact | crates/cc-wallet-chain/src/activity.rs:20-24 | the filter keeps every internal message, once, in order, and no other |
| TxViews.ExtraUnitsExact | crates/cc-wallet-chain/src/activity.rs:144-155 | every listed currency carries its own amount, an unlisted one nothing |
| TxViews.ActivityFromChainTx | crates/cc-wallet-chain/src/activity.rs:12-93 | accepts exactly the transactions whose hashes, amounts and fees fit; a received message gives one incoming event from its sender, an external one only outgoing events, one per internal message with its destination and hash and the external hash, or a single event that moves nothing |
| TxViews.AddUpFees | crates/cc-wallet-chain/src/explorer.rs:94-99 | the checked sum succeeds exactly inside 128 bits and is then exact |
| TxViews.RowMovements | crates/cc-wallet-chain/src/explorer.rs:101-147 | the row's two lists, refused exactly when an amount or a total does not fit |
| TxViews.AccountTxFromChainTx | crates/cc-wallet-chain/src/explorer.rs:81-164 | accepts exactly the transactions whose hash, fees, amounts and totals fit; the row's kind and counterparty follow the triggering message and the first internal message that leaves |
| TxViews.RowTells | crates/cc-wallet-chain/src/explorer.rs:101-146 | the row's kind, counterparty and movement lists, over the transaction's own fields |
| TxViews.FirstInternal | crates/cc-wallet-chain/src/explorer.rs:117-137 | the row's counterparty message is the first internal one of the transaction |
| TxViews.TwoViewsAgree | crates/cc-wallet-chain/src/activity.rs:12-64 | for an externally triggered transaction both views accept, the activity fees sum to the row's fee and every asset's movements sum to the row's total |
| TxViews.SuccessFlagsAgree | crates/cc-wallet-chain/src/activity.rs:109-132 | the success flags agree exactly when an internal message leaves or the transaction failed |
| TxViews.InboundViews | crates/cc-wallet-chain/src/activity.rs:65-91 | for a received message: equal movements, fees equal exactly when nothing was paid to send on, and exactly when the success flags agree |
| TraceTree.PendingMessages | crates/cc-wallet-chain/src/trace.rs:90-98 | exactly the indices of the internal messages, each once |
| TraceTree.GatherNode | crates/cc-wallet-chain/src/wallet_service.rs:1077-1081 | adds exactly one node's internal messages to the requests |
| TraceTree.GatherRequests | crates/cc-wallet-chain/src/wallet_service.rs:1076-1081 | exactly the internal messages of the frontier, each once |
| TraceTree.JoinOne | crates/cc-wallet-chain/src/wallet_service.rs:1105-1114 | one completed lookup hangs the found transaction on its message and keeps the tree |
| TraceTree.JoinLookups | crates/cc-wallet-chain/src/wallet_service.rs:1095-1115 | for every completion order: the level's answers are all in the tree, at most one new node per request, and it fails exactly when a lookup does |
| TraceTree.WalkLevel | crates/cc-wallet-chain/src/wallet_service.rs:1086-1116 | one level keeps the limits and the tree, and marks truncation exactly when requests were dropped |
| TraceTree.BuildTrace | crates/cc-wallet-chain/src/wallet_service.rs:1072-1124 | at most 64 nodes and depth 12, children after parents on distinct internal messages, every answer shown, and truncated exactly when some internal message was not asked about |
| TraceTree.UntruncatedIsComplete | crates/cc-wallet-chain/src/wallet_service.rs:1119-1124 | in an untruncated trace every internal message is settled by the tree |
| TraceWalk.VisitedOnce | crates/cc-wallet-chain/src/trace.rs:182-220 | the depth-first walk visits every message of every node exactly once |
| TraceWalk.WalkIsAll | crates/cc-wallet-chain/src/trace.rs:182-220 | the walk is a rearrangement of all messages of all nodes |
| TraceWalk.WalkEntersAll | crates/cc-wallet-chain/src/trace.rs:215-217 | the walk enters every node but the root exactly once |
| TraceWalk.EffectFollowsCause | crates/cc-wallet-chain/src/trace.rs:215-217 | depth first: right after a message come the messages of the transaction it caused |
| TraceWalk.SiblingsInOrder | crates/cc-wallet-chain/src/trace.rs:193-218 | a transaction's own messages are visited in their order |
| TraceFlatten.TraceView.PartyIndex | crates/cc-wallet-chain/src/trace.rs:229-243 | an address keeps one place, new ones go to the end, and place 0 is the outside world |
| TraceFlatten.TraceView.Draw | crates/cc-wallet-chain/src/trace.rs:194-214 | draws the edge of one message between the right parties, or refuses exactly when an amount or hash is malformed |
| TraceFlatten.TraceView.WalkMessage | crates/cc-wallet-chain/src/trace.rs:193-217 | a message's edge followed by the edges of everything it caused |
| TraceFlatten.TraceView.WalkOut | crates/cc-wallet-chain/src/trace.rs:182-220 | terminates, and appends exactly the edges of the walk in its order, or refuses exactly when a message on it does not fit |
| TraceFlatten.DrawRoot | crates/cc-wallet-chain/src/trace.rs:117-146 | the first edge is what triggered the root |
| TraceFlatten.AddUp | crates/cc-wallet-chain/src/trace.rs:150-168 | the loop's fees, failures and unexecuted count are the sums over the edges, refused exactly on overflow |
| TraceFlatten.DrawingConserves | crates/cc-wallet-chain/src/trace.rs:100-180 | edges number one plus all out-messages; fees are the root's inbound forward fee plus every node's fees and every out-message's forward fee; failures and executions count every node once |
| TraceFlatten.ArrowsConnect | crates/cc-wallet-chain/src/trace.rs:189-214 | where the edge of a message arrives, the edges of the transaction it triggered leave, one level deeper |
| TraceFlatten.RootConnects | crates/cc-wallet-chain/src/trace.rs:117-146 | the root's messages leave from the party its trigger reached |
| TraceFlatten.EventsLeave | crates/cc-wallet-chain/src/trace.rs:195-203 | a message leaving the chain, or without destination, is drawn to the outside world, any other to its destination |
| TraceFlatten.EdgeTells | crates/cc-wallet-chain/src/trace.rs:204-214 | operation, fee, movements, depth and executed transaction of every edge, field by field |
| TraceFlatten.Flatten | crates/cc-wallet-chain/src/trace.rs:100-180 | succeeds exactly when every amount and hash is well formed and the fees fit 128 bits; then every message is drawn once and nothing is lost or counted twice |
| TraceFlatten.TraceTransaction | crates/cc-wallet-chain/src/wallet_service.rs:1072-1159 | walk and flattening together: at most 64 transactions shown, and an untruncated trace answers every internal message |
| Swap.QuoteIsFloor | crates/cc-wallet-domain/src/swap.rs:118-135 | a quote on a nonempty pool is the constant-product formula rounded down |
| Swap.QuoteIsLargest | crates/cc-wallet-domain/src/swap.rs:118-135 | the quote is the largest output that keeps the product of the reserves, counting the input after the fee |
| Swap.QuoteFailsOnlyByOverflow | crates/cc-wallet-domain/src/swap.rs:118-135 | no quote exactly for a fee of all or more, or when a product or sum leaves 128 bits |
| Swap.FeeTaken | crates/cc-wallet-domain/src/swap.rs:125-125 | the pool keeps at least the fee's share of the input, and less than one unit more |
| Swap.FeeNeverHelps | crates/cc-wallet-domain/src/swap.rs:118-135 | a larger fee never pays more |
| Swap.ProductNeverDecreases | crates/cc-wallet-domain/src/swap.rs:118-135 | no swap lowers the product of the reserves |
| Swap.CurveBound | crates/cc-wallet-domain/src/swap.rs:118-135 | along any sequence of swaps the output reserve stays on or above the starting curve at the input counted so far |
| Swap.SplittingGainsNothing | crates/cc-wallet-domain/src/swap.rs:118-135 | with a positive input reserve, any number of swaps in a row pay at most what one swap of the whole input pays |
| Swap.EmptyReserveSplit | crates/cc-wallet-domain/src/swap.rs:122-124 | with an empty input reserve the single quote is zero, and a split in two gains exactly when its second quote is positive |
| Swap.EmptyReserveSplitGains | crates/cc-wallet-domain/src/swap.rs:122-124 | a concrete split that gains on an empty input reserve |
| Swap.QuoteBounds | crates/cc-wallet-domain/src/swap.rs:137-173 | the least accepted output is the quote less slippage rounded down: at most the quote, all of it at zero slippage, nothing at full slippage |
| CommentCodec.SplitTail | crates/cc-wallet-tycho/src/encrypted_comment.rs:53-59 | the splitting loop terminates and yields the specified chunks |
| CommentCodec.BuildChain | crates/cc-wallet-tycho/src/encrypted_comment.rs:61-69 | the chain built from its last cell is the specified chain, refused exactly when a chunk is too long |
| CommentCodec.EncryptedCommentPayload | crates/cc-wallet-tycho/src/encrypted_comment.rs:41-82 | accepts exactly 40 to 991 sealed bytes, the cell builder never refusing, and builds the specified chain |
| CommentCodec.ParseEncryptedComment | crates/cc-wallet-tycho/src/encrypted_comment.rs:89-129 | terminates; not a comment, a comment or an error exactly as specified; a comment is the key and all bytes along the chain |
| CommentCodec.BuiltCellsFit | crates/cc-wallet-tycho/src/encrypted_comment.rs:41-82 | every cell built has at most 1023 bits and one reference |
| CommentCodec.ChunksAreFull | crates/cc-wallet-tycho/src/encrypted_comment.rs:55-59 | every chunk but the last fills 127 bytes, so the chain has as few cells as possible |
| CommentCodec.RootLayout | crates/cc-wallet-tycho/src/encrypted_comment.rs:71-79 | the root begins with operation, version, key and nonce, holds the next 66 bytes, and refers on exactly for more than 90 sealed bytes |
| CommentCodec.ParseOfBuilt | crates/cc-wallet-tycho/src/encrypted_comment.rs:41-129 | parsing what the builder made returns the same key and bytes, for every blob it accepts |
| CommentCodec.BuildThenParse | crates/cc-wallet-tycho/src/encrypted_comment.rs:41-129 | the two methods composed return the comment exactly for buildable blobs |
| CommentCodec.EncodingIsInjective | crates/cc-wallet-tycho/src/encrypted_comment.rs:41-82 | different keys or blobs build different cells |

## Left out

- JSON and serde, strict object parsing, schema versions and error texts: the model starts from typed values.
- Container encryption, key derivation, signatures and the shared-secret derivation: abstract or absent.
- Which of several error variants `validate_static` and the provenance checks report: only acceptance is modelled there.
- Request ids, route observations and timestamps of a provenance beyond their well-formedness: they do not enter replay.
- The cache of opened keyslots in `unlock`: a candidate opens or not, however often its key was derived.
- Vault.VaultStore.Unlock: has no failure points, because `VaultDisk.Disk.UnlockWallet` is the same operation with all of them.
- VaultCrash.CrashSafety: assumes one live process and directory operations reaching the disk in order; a file system that reorders renames is not modelled.
- VaultWriters.NoLostUpdate: saves and unlocks take turns, because the code serialises them with an instance lock.
- Secure overwriting, permissions, inodes, symbolic links, the instance lock, wallet listing and destruction.
- Climbing from the requested transaction to the root of its trace, and reading contract code: they only choose inputs of the walk.
- TraceFlatten.TraceView.Draw: omits the raw operation number of an edge, because it comes from cell decoding outside the model.
- Activity messages (plain or sealed comments), finality times and pending rows: copied fields without logic.
- TxViews.InboundViews: relates only the one event of a received message, because forwards have no second activity event.
- Reads of the config and transport caches, emulation, network transport and subscriptions.
- Slippage text parsing and stepping, the swap request form, validator clock, controller and user interface.
