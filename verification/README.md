# pp-ledger in Dafny

A model of the core of pp-ledger, a proof-of-stake blockchain in C++, and proofs about it. `dafny verify dfyconfig.toml`
checks everything; each file is one module.

**The chain.** `Bank` gives the account buffer's operations as functions on a map of accounts, `TxHandlers` the seven
transaction kinds in their strict, loose and mempool forms, `BlockValidation` and `ChainSpec` the processing of blocks,
checkpoints and replay. The classes `AccountBuffers.AccountBuffer`, `Chains.Chain` and `Miners.Miner` and the methods of
`TxHandlerMethods`, `TxIdempotency`, `TxFees`, `TxSignatures`, `Renewals`, `TxSearch` and `LeaderSelection` do the same
step by step, with the source's loops and assignments, and are proved against those functions. What the functions mean is
proved about whole runs (`Runs`): conservation and supply, balance bounds, checkpoint safety, at-most-once inclusion, what
holds after rejected blocks (`RejectedBlocks`), the late joiner and when its load succeeds (`SyncGuards`), the fresh node that
fetches its blocks (`FreshJoiner`), the restart from block 0 (`Reload`), the overlay as a refinement of the block path, the
agreement of producer and validator on renewals (`RenewalAgreement`, `RenewalOrder`, `RenewalBlocks`), the acceptance of a
produced block (`ProducedBlocks`), and what stops a producer (`SpentRecords`). The chain's theorems hold for every payload codec, hash, signature check and
leader choice (`ChainTypes.Codec`); `BinaryCodec` puts the program's codec in, and `PackedSizes` shows that it meets what the
theorems assume of decoded numbers.

What each operation does is also said apart from the functions: `Spending` and `HandlerOutcomes` say when each kind of record is accepted
and what it changes, in terms of balances, wallets and metadata; `Signers` whose keys it needs; `TxFees` what it costs; `Acceptance`
when a block is accepted, which accounts are due and when checkpoints move; `Producing` and `Forwarding` what a miner puts into a block
and what becomes of the rest; `StoreOutcomes` when the stores take a block and where they put it; `WireFormat` which bytes are written.

**The store.** `FileFormat`, `FileDirFormat`, `DirDirFormat` and `LedgerFormat` give the operations of the block file, the
directory of files, the top store with its relocation, and the ledger with its one-block cache; `FileLaws`, `FileDirLaws`,
`DirDirLaws`, `StoreRuns` and `LedgerLaws` prove that each behaves as one list of blocks, over every run and every remount.
The classes of `FileStores`, `FileDirStores`, `DirDirStores` and `LedgerStore` hold the fields and change them in place.

**The codecs.** `Archive` and `Archives` are the binary archive, `ChainCodec` and `AccountCodec` its use for blocks,
transactions and accounts, `MetaCodec` and `MetaReader` the tagged metadata, `Json`, `JsonLaws`, `JsonPrinter` and
`JsonParser` the printer and parser (the string grammar is that of section 7 of RFC 8259, restricted to `\u00XX`).

## What the proofs found in the code

Where a property is not true of the code as it stands, the code is modelled as it is, the exact condition is proved for all
inputs, and a lemma gives an input that is accepted and fails it. The chain's inputs (`ChainCounterexamples`, `SmallRenewals`,
`EndedAccounts`, `RejectedCounterexamples`, `RestartCounterexample`, `JoinerCounterexample`) are blocks offered, or what a producer
collects and pools, behind a genesis block that the program's own codec has packed (`SmallChain`); the store's are in
`StoreCounterexamples`.

- `Conservation.ConservesIff`: a transfer of a positive amount to oneself creates tokens, or destroys them when it also pays
  a native fee (both balances are read before either is written); a write-off drops negative balances, and the recycle
  account's own balances. `SelfPaymentCreates`, `EndingForgetsDebt`.
- `BalanceBounds.ReplaceBoundedIff`: a user update may take its account below zero. `UpdateGoesBelowZero`.
- `RenewalAgreement.FeeRenewalAcceptedIff`, `RenewalOrder.AllPassIff`: the renewal collected for the fee account keeps the fee in
  its payload, so it passes exactly when the records before it have just paid that fee in: its fee must be the genesis account's
  when that is due as well, and zero when it is not. A chain on which the two come due apart stops every producer.
  `SmallRenewals.FeeRenewalStopsProducers`; where they are due together, `EndedAccounts.PaymentToEndedAccount`.
- `Overlay.OverlayAgreesIff`, `ProducedBlocks.ProducedBlockAcceptedIff`: the overlay keeps no trace of an ended account and copies
  it again, so it takes transactions to or from an account that a renewal record of the same slot ends, and the block cut from
  them is refused. `EndedAccounts.PaymentToEndedAccount`; `RenewalOrder.CollectedLeavesEndedAloneIff` says when the renewals alone
  do this.
- `RenewalBlocks.GenesisRenewalStopsIff`, `Anchoring.OfferKeepsAnchorsIff`: after a user update of the genesis account in a
  block without genesis metadata its renewal cannot be made any more. `GenesisUpdateAccepted`.
- `ProducedBlocks.ProducedBlockAcceptedIff`: the mempool does not look for a repeated idempotency key among pending
  transactions, so a producer can build a block that every validator rejects. `MempoolTakesKeyTwice`.
- `RenewalBlocks.ProducerAgrees`, `SpentRecords.SpentStopsProducer`: a slot cannot be prepared while a pending transaction no
  longer passes, and only a produced block takes transactions off the list; one whose window has passed stops the producer for
  good. `TakenIsSpentLater`.
- `Mining.TransactionSetWithinLimitIff`: the block limit is waived for renewal records only, so more due accounts than the
  limit with one of them ending makes a block that validators reject. `EndingsExceedLimit`.
- `Reload.RestartIff`: a restart from block 0 asks of every block the renewals that are due by the clock of the restart, which
  with a minimum checkpoint age can be more than were due when it was made; `MissedRenewalStopsRestart` names the block that
  stops every later restart. `RestartCounterexample.RestartDependsOnClock`.
- `SyncGuards.CheckpointSyncIff`: a load from the last checkpoint can fail on blocks that the chain has accepted, since some
  handlers need accounts that the replay has not met yet. `JoinerCounterexample.CheckpointCannotBeLoaded`,
  `FeeAccountMustBeKnown`.
- `FreshJoiner.UnconfiguredStaysLoose`, `FreshJoiner.UnsetScheduleStops`: a node that starts at a checkpoint validates loosely for
  ever unless a configuration record reaches it, and takes no block any more once it would validate strictly, since only a genesis
  block sets its slot schedule.
- `RejectedBlocks.RejectedLeaves`: a rejected block is not undone. What that does not harm is proved (`StampsHold`, `OnceHoldsAll`,
  `TotalsHold`); what it does harm is shown by `RejectedPaymentRepeats`, `StampWithoutBlock` and `GenesisReconfigures` in
  `RejectedCounterexamples`.
- `Ouroboros.AcceptedSlotIsOwnIff`: a slot number beyond the representable range passes the timing check of a foreign slot.
  `Ouroboros.TimingWraps`.
- `FileFormat.ScanRebuildsIff`, `FileLaws.MountAfterTornWriteIff`: the scan of a block file adds sizes with wrap-around, so a
  torn last block whose size field is large enough is counted, or keeps the scan in its loop. `FileLaws.OnesAreCounted`,
  `FileLaws.ScanMayNotEnd`.
- `FileLaws.AppendSurvivesIff`: a block appended behind a torn one is not found by the next mount, whatever the torn bytes.
- `FileLaws.WriteRepresentsIff`: appending to a mounted file whose index was never built leaves an index of one entry
  (`WriteLosesIndex`); `DirDirLaws.ReadLastMakesStoreReady` shows why a mounted ledger is safe, `DirDirLaws.LoneDirectoryIff`
  when a store that has just been relocated is not. `RelocationLosesIndex`.
- `FileDirLaws.RewindDirMeaning`, `DirDirLaws.RewindStoreMeaning`: truncating a directory store to its own count drops every
  block. `OneFileDirectory`, `TruncatedStoreIsLost`.
- `DirDirLaws.MountStoreIff`: a relocated store whose subdirectories were all truncated away cannot be mounted again.
  `TruncatedStoreIsLost`.
- `FileDirLaws.CanFitTellsIff`: the room check denies a block that the last file would take, and admits one within 32 bytes of
  the file limit that is then refused. `OneFileDirectory`, `AdmitsTooMuch`.
- `LedgerLaws.StaleCacheIff`: mounting with an object that still caches a block can return that block for the last one.
  `StaleCacheAnswersWrong`.

## Model

| member | source | states |
|---|---|---|
| AccountBuffers.AccountBuffer.CheckSpendingPower | chain/AccountBuffer.cpp:113-191 | the branch-by-branch check decides exactly as the specification of spending power does, issuers being allowed debt in their own token |
| AccountBuffers.AccountBuffer.CheckBalance | chain/AccountBuffer.cpp:193-280 | the two loops over the wallets decide exactly: custom tokens agree in both directions and the native balance is the expected one plus amount and fee, without overflow |
| AccountBuffers.AccountBuffer.TransferBalance | chain/AccountBuffer.cpp:336-413 | the whole new map and status of a transfer in place, including what the two late failures leave behind |
| AccountBuffers.AccountBuffer.WriteOffAccount | chain/AccountBuffer.cpp:415-437 | the loop over the balances leaves the recycle account with every positive balance added and the account gone |
| TxHandlerMethods.ApplyDefaultTransferLoose | chain/DefaultTxHandler.cpp:135-201 | the four cases of a replayed transfer (both, one or no party known), step by step in place |
| TxHandlerMethods.ApplyNewUser | chain/NewUserTxHandler.cpp:114-231 | the checks in the source's order, then the new account is added and funded in place |
| TxHandlerMethods.ApplyUserAccountUpsert | chain/UserAccountUpsertBase.cpp:53-150 | the account is removed, added again with the payload's wallet, and the fee account credited if there is one |
| TxHandlerMethods.ApplyGenesisRenewal | chain/RenewalTxHandler.cpp:127-222 | the genesis account is replaced by its renewal, in strict and in loose mode |
| TxHandlerMethods.ApplyEndUser | chain/EndUserTxHandler.cpp:72-123 | an account that can no longer pay its renewal is written off; one that can is refused |
| TxHandlerMethods.ApplyToBuffer | chain/RecordHandler.cpp:76-93 | the overlay path: idempotency, seeding in the source's order, then the strict handler |
| Spending.SpendingAllowedIff | chain/AccountBuffer.cpp:113-191 | spending is allowed if and only if the account is known, amount and fee are 64-bit, and what remains of the token and of the native token is at or above its floor: zero, or for an issuer in its own token the bottom of the range; and which error it is otherwise |
| Spending.AllCanBeSpent | chain/AccountBuffer.cpp:174-188 | exactly what is held of a token can be spent, with exactly the fee held, and no more |
| Spending.PaymentAcceptedIff | chain/AccountBuffer.cpp:336-413 | a payment is carried out if and only if the sender may spend it, the receiver is known with room for the amount, and the fee account is known with room for the fee |
| Spending.PaymentMoves | chain/AccountBuffer.cpp:357-413 | a payment between two accounts changes balances only, each by exactly the amount and fee it gives or takes |
| Spending.SelfPaymentMoves | chain/AccountBuffer.cpp:357-413 | a payment to oneself adds the amount, or of native tokens with a fee subtracts it |
| Spending.HoldsExactlyIff | chain/AccountBuffer.cpp:193-280 | an account verifies if and only if it holds, token by token, what is expected and the amount and fee, within 64 bits |
| Spending.WithdrawIff | chain/AccountBuffer.cpp:307-334 | a withdrawal succeeds if and only if it leaves the balance at or above its floor, and takes exactly the amount |
| Spending.WriteOffIff | chain/AccountBuffer.cpp:415-437 | a write-off removes the account, gives its positive balances to the recycle account and touches nobody else |
| HandlerOutcomes.FeeAcceptedIff | chain/TxFees.cpp:38-90 | a record pays enough if and only if it pays the price of the bytes it is charged for |
| HandlerOutcomes.PaymentIff | chain/DefaultTxHandler.cpp:98-133 | a strict payment record is accepted if and only if it pays its fee and sender, receiver and fee account can do it |
| HandlerOutcomes.LoosePaymentIff | chain/DefaultTxHandler.cpp:135-201 | a loose one, by which of its parties are known |
| HandlerOutcomes.NewUserIff | chain/NewUserTxHandler.cpp:114-231 | an account is opened if and only if the fee is enough, its id is new and a user's or the opener is the genesis account, the payload opens it with exactly the amount, and the sender can pay |
| HandlerOutcomes.NewUserDoes | chain/NewUserTxHandler.cpp:114-231 | the new account has the payload's keys, the amount and this block's number; sender and fee account change by amount and fee, nothing else does |
| HandlerOutcomes.UpdateIff | chain/UserAccountUpsertBase.cpp:53-150 | an update or renewal is accepted if and only if the fee is enough, the wallet is good, the account holds exactly what the payload says and the fee, and the fee account has room; what it replaces |
| HandlerOutcomes.GenesisRenewalIff | chain/RenewalTxHandler.cpp:127-222 | the same for the genesis account, with three keys and two signatures |
| HandlerOutcomes.EndingIff | chain/EndUserTxHandler.cpp:72-123 | an account is ended if and only if it is known with the recycle account and holds less than its renewal would cost |
| HandlerOutcomes.ConfigIff | chain/ConfigTxHandler.cpp:51-136 | a configuration update is accepted if and only if it says what the genesis account holds, keeps genesis time and lets slots grow no longer and epochs no shorter |
| HandlerOutcomes.ConfigInForce | chain/ConfigTxHandler.cpp:112-136 | an accepted configuration record puts its configuration in force on the block path, and no other record changes it |
| HandlerOutcomes.FoundingIff | chain/GenesisTxHandler.cpp:62-110 | when the genesis record is carried out, and what it sets |
| Conservation.RecordDrift | chain/AccountBuffer.cpp:336-437 | an accepted strict record moves the total of every token by exactly the stated drift: only self-transfers, uncredited fees and lossy write-offs move any |
| Conservation.DriftIff | chain/AccountBuffer.cpp:357-436 | all drifts are zero exactly under a condition that can be checked before the record |
| Conservation.ConservesIff | chain/AccountBuffer.cpp:336-437 | an accepted strict record conserves every token if and only if sender and receiver differ or nothing is moved, the fee account exists when a renewal fee is paid, and a write-off loses nothing |
| Conservation.RunDrift | chain/Chain.cpp:506-585 | over every run, from any accounts, each token's total moves by exactly the sum of the records' drifts |
| Conservation.RunConserves | chain/Chain.cpp:506-585 | every run of conserving records leaves every token's total as it was, from any accounts and for any codec |
| ChainCounterexamples.SelfPaymentCreates | chain/AccountBuffer.cpp:357-395 | a block with a payment of 5 to oneself, accepted right after the genesis block, that makes 5 tokens |
| ChainCounterexamples.EndingForgetsDebt | chain/AccountBuffer.cpp:420-433 | an accepted block that ends an issuer and forgets its debt of 5 |
| BankTotals.TransferTotal | chain/AccountBuffer.cpp:357-410 | a transfer moves a token's total only when sender and receiver are the same account |
| BankTotals.WriteOffTotal | chain/AccountBuffer.cpp:415-437 | a write-off loses exactly the negative balances, or everything when the account is the recycle account |
| BalanceBounds.TransferKeepsBounds | chain/AccountBuffer.cpp:336-413 | after a transfer every balance is within 64 bits and only issuers owe, in their own token |
| BalanceBounds.TransferArithmeticFits | chain/AccountBuffer.cpp:126-176 | no intermediate signed expression of a transfer overflows, given that amount plus fee fits |
| BalanceBounds.ReplaceBoundedIff | chain/AccountBuffer.cpp:265-277 | a verified update payload is within bounds exactly when the account could pay the fee, is the genesis account, or lists no native balance: the verification alone admits a negative one |
| ChainCounterexamples.UpdateGoesBelowZero | chain/AccountBuffer.cpp:265-277 | an accepted block with a user update whose payload of -1 leaves its account owing |
| BalanceBounds.WriteOffKeepsBounds | chain/AccountBuffer.cpp:426-433 | the unchecked addition of a write-off stays within 64 bits when tokens net to zero |
| Supply.RecordKeepsSupply | chain/AccountBuffer.cpp:282-437 | an accepted record that conserves, takes no account below zero and ends no account holding a token owed at the bottom of the range keeps: every token nets to zero, every balance fits, only issuers owe |
| Supply.SupplyHolds | chain/Chain.cpp:506-585 | that invariant in every state of every run of such records |
| Supply.GenesisIssuesSupply | chain/BlockValidation.cpp:200-226 | after an accepted genesis block whose wallet starts empty, genesis owes exactly the initial supply and the other three accounts hold exactly that |
| TxIdempotency.CheckForDuplicate | chain/TxIdempotency.cpp:6-51 | the two nested loops with early exits return what the recursive scan of the blocks returns |
| TxIdempotency.CheckMeaning | chain/TxIdempotency.cpp:17-50 | on an orderly ledger the check passes exactly when no block between the two slots holds the key |
| TxIdempotency.RulesMeaning | chain/TxIdempotency.cpp:53-98 | a record that passes lies inside its window, and no earlier slot of the window holds its key |
| BlockValidation.ValidateIntraBlockIdempotency | chain/BlockValidation.cpp:315-349 | the set-filling loop accepts exactly the blocks whose keys are pairwise different |
| AtMostOnce.OnceHolds | chain/BlockValidation.cpp:315-349 | in every state of every run, of two records with one key the earlier lies before the later one's window |
| AtMostOnce.NoRecordTwice | chain/TxIdempotency.cpp:53-98 | no record with a key stands at two places of the chain, the genesis block's own records aside |
| AtMostOnce.BootEstablishesOnce | chain/Chain.cpp:535-552 | the genesis block starts such runs |
| LedgerView.FindsFirst | ledger/Ledger.cpp:623-647 | the halving search finds the first block not earlier than a timestamp, and nothing exactly when all are earlier |
| TxFees.FindUserAccount | chain/TxLedgerMeta.cpp:9-30 | the reverse scan returns the last metadata of the account in the block, or the error |
| TxFees.FindGenesisMeta | chain/TxLedgerMeta.cpp:32-55 | the same for the genesis metadata |
| TxFees.MetaCarriers | chain/TxLedgerMeta.cpp:9-55 | which records carry an account's metadata |
| TxFees.FeeMonotone | chain/TxFees.cpp:21-62 | more metadata never costs less, what costs is defined for everything smaller, and the free tier costs the constant coefficient |
| TxFees.FeeValueIff | chain/TxFees.cpp:38-63 | the fee is a + b k + c k k for the k KiB begun beyond what is free, and it is an error exactly when there are no coefficients, the size exceeds the maximum or the value the range |
| TxFees.FourKiB | chain/TxFees.cpp:44-53 | at the coefficients 1, 2, 3: 57 for four KiB, 86 for one byte more |
| TxFees.MinFeeForTxIs | chain/TxFees.cpp:65-110 | a record is charged for its own metadata, or for that inside the account it carries |
| TxSignatures.VerifySignaturesAgainstAccount | chain/TxSignatures.cpp:7-52 | the nested loops over a mutable array of used keys compute the greedy matching |
| TxSignatures.AcceptedSignaturesMatch | chain/TxSignatures.cpp:20-51 | acceptance gives an injective assignment of the signatures to keys that verify them, with no assumption on the verifier |
| TxSignatures.SignaturesAcceptedIff | chain/TxSignatures.cpp:7-52 | when no signature verifies under two different keys, the loop accepts exactly the lists that are long enough and can be matched at all |
| Signers.SignaturesIff | chain/Chain.cpp:644-681 | a record's signatures are accepted exactly when they match the keys of the account it acts for: payer, updated account, genesis account, or the slot's leader for renewals and endings; and when an unknown one is tolerated |
| Signers.BufferedIsSigned | chain/Chain.cpp:587-605 | so are those of what a miner takes, by the committed accounts |
| Signers.AcceptedBlockIsSigned | chain/Chain.cpp:554-642 | in every accepted block every record is signed with the keys its predecessors have left the account it acts for |
| TwoKeys.OwnKeyOnly | chain/UserUpdateTxHandler.cpp:34-42 | with different keys: a user's update signed by the leader is refused in the leader's block and mempool, one signed by the user is carried out |
| BlockValidation.ValidateAccountRenewals | chain/BlockValidation.cpp:420-500 | the loops accept exactly: every renewal record is allowed, and every account past the deadline is renewed or ended |
| Chains.Chain.ApplyGenesisInit | chain/GenesisTxHandler.cpp:62-110 | configuration, schedule and genesis account are set in the source's order, which commits the configuration before a late failure |
| Chains.Chain.ApplyRecord | chain/RecordHandler.cpp:95-111 | one record on the block path, strict or loose, with the configuration committed only there |
| Chains.Chain.CheckTxSignatures | chain/Chain.cpp:644-681 | which account must have signed, and when a missing one is tolerated |
| Chains.Chain.ProcessNormal | chain/Chain.cpp:554-585 | validation, records, then the checkpoint pair rotates when it is old enough |
| Chains.Chain.Add | chain/Chain.cpp:506-524 | a block offered to the chain: strict or loose processing, then the append; the whole new state is given |
| Chains.Chain.Load | chain/Chain.cpp:449-504 | the replay loop over the ledger gives the state of the recursive replay |
| Runs.OfferUnfolds | chain/Chain.cpp:506-585 | what acceptance of a block at the tip says about the block, its records and the new state |
| Acceptance.TipAcceptedIff | chain/Chain.cpp:506-585 | a block at the tip is accepted if and only if hash, number, link and count are right, the stakes choose its leader, its time lies in its slot, it renews all and only what is due, keeps the limit, repeats no key, and its records are accepted one after another |
| Acceptance.DueIff | chain/BlockValidation.cpp:381-418 | an account is due if and only if the block that set it lies the minimum number of blocks back and is older than the minimum age, unless checkpoints span less than two blocks and none is young |
| Acceptance.RotationIff | chain/BlockValidation.cpp:366-379 | the checkpoints move if and only if blocks, epoch and age of the current one are reached |
| Acceptance.OnTimeIff | chain/TxIdempotency.cpp:53-98 | a keyed record is on time if and only if its window is in order, short enough and around the slot, and no block of the window before the slot holds the key |
| Acceptance.GenesisIff | chain/BlockValidation.cpp:39-258 | which genesis blocks are accepted, field by field and record by record |
| Acceptance.SequenceIff | chain/BlockValidation.cpp:260-313 | which numbers, hash links and counts follow on from a ledger, below its tip as well |
| Acceptance.ReplayPassesIff | chain/Chain.cpp:463-500 | when a replay goes past a block |
| Acceptance.StakesIff | chain/Chain.cpp:412-447 | stakes are exactly the positive native balances, taken anew when the epoch changes |
| Runs.AlwaysStrict | chain/Chain.cpp:70-79 | a chain grown from its genesis block validates every block at its tip strictly |
| Runs.BaseHolds | chain/BlockValidation.cpp:260-313 | in every state of every run blocks are numbered by place, linked by hash, count the records before them, and lie in increasing slots and inside their slots |
| RejectedBlocks.RejectedLeaves | chain/Chain.cpp:506-585 | a rejected block leaves ledger, checkpoints, schedule and stakes alone; validation that fails changes nothing, otherwise a first part of the records stays applied, and nothing else when the failing record fails cleanly |
| RejectedBlocks.StampsHold | chain/Chain.cpp:506-585 | in every state of every run in which rejected blocks are passed over: the ledger is in order, no account was last set before the last checkpoint or behind the next block, the configuration has only been tightened |
| RejectedBlocks.OnceHoldsAll | chain/TxIdempotency.cpp:53-98 | no keyed record stands on the ledger twice in such runs |
| RejectedBlocks.TotalsHold | chain/Chain.cpp:506-585 | when the records that are applied conserve and those that fail do so cleanly, every total stays as it was in such runs |
| RejectedCounterexamples.RejectedPaymentRepeats | chain/Chain.cpp:554-564 | a block with a keyed payment, rejected twice for its second record, and then a block with the payment alone: the payment stands on the ledger once and has been made three times |
| RejectedCounterexamples.StampWithoutBlock | chain/TxLedgerMeta.cpp:9-30 | a rejected renewal leaves the reserve set by a block that does not exist; when an empty block takes that number its next renewal cannot be made |
| RejectedCounterexamples.GenesisReconfigures | chain/GenesisTxHandler.cpp:62-110 | a genesis block on a running chain is rejected; its configuration and schedule are in force from then on, and no block is valid before the stakes have been refreshed |
| ConfigHistory.RecordsTighten | chain/ConfigTxHandler.cpp:82-112 | the records of a block can only tighten the configuration, even when the block is rejected half way |
| ConfigHistory.ConfigTightens | chain/ConfigTxHandler.cpp:51-136 | over every run genesis time is fixed, slots never grow, epochs never shrink, and the slot schedule itself never changes |
| CheckpointSafety.DeadlineMet | chain/BlockValidation.cpp:420-500 | after an accepted block every account was last set at or after the block's renewal deadline |
| CheckpointSafety.RotationFollowsDeadline | chain/BlockValidation.cpp:366-418 | whenever the checkpoint rotates, the renewal deadline has passed the block that becomes the last checkpoint |
| CheckpointSafety.CheckpointHolds | chain/Chain.cpp:566-582 | in every state of every run no account was last set before the last checkpoint, and last <= current < next block, provided only that a block that moves the last checkpoint does not lower the checkpoint settings |
| CheckpointSafety.BootEstablishesCheckpoint | chain/Chain.cpp:535-552 | the genesis block starts such runs |
| LateJoiner.TransferSimulates | chain/DefaultTxHandler.cpp:135-201 | a transfer accepted strictly by the full node and loosely by the late joiner keeps their accounts in agreement |
| LateJoiner.HandleSimulates | chain/UserAccountUpsertBase.cpp:108-146 | the same for every kind of record |
| LateJoiner.ReplaySimulates | chain/Chain.cpp:449-504 | for every run of the full node and every successful replay of its last blocks on a bank in agreement: what the joiner holds is as the full node holds it, the fee account's native balance aside, and it holds every account set since the start |
| CheckpointSync.CheckpointSyncIsExact | chain/Chain.cpp:449-504 | a node that starts from the last checkpoint with no accounts and replays successfully holds exactly the running chain's accounts except genesis and the fee account's native balance |
| SyncGuards.HandleAppliesIff | chain/DefaultTxHandler.cpp:135-201 | for every kind of record that the running chain accepts: a late joiner can apply it if and only if it knows the accounts the handler needs, lacks no fee the handler counts on, and has a configuration when one ends an account; what it knows next follows from the record |
| SyncGuards.ReplaySucceedsIff | chain/Chain.cpp:449-504 | a loose replay succeeds if and only if each block of the run meets that condition, which is stated over the run and the ids and fees met so far |
| SyncGuards.CheckpointSyncIff | chain/Chain.cpp:449-504 | loading from the last checkpoint with no accounts succeeds if and only if the slot schedule is set and the blocks from there on meet it, and then gives the accounts of the running chain |
| ChainCounterexamples.FeeAccountMustBeKnown | chain/DefaultTxHandler.cpp:135-201 | an accepted block with a payment that a joiner knowing both parties but not the fee account cannot replay |
| JoinerCounterexample.CheckpointCannotBeLoaded | chain/NewUserTxHandler.cpp:114-231 | an accepted run of six blocks, both checkpoints taken, that no node can load from its last checkpoint, whatever its configuration, schedule and clock: the checkpoint block opens with a new account paid for by one the joiner has not met |
| FreshJoiner.FreshStepIff | server/MinerServer.cpp:422-475 | the next block of the running chain, offered to a node that started at a checkpoint and whose own pair has not rotated: it is taken if and only if its records are applicable to what the node knows; the node stays beside the running chain, and its pair rotates exactly when it has a configuration whose block count and age are reached |
| FreshJoiner.TakeIff | server/MinerServer.cpp:422-475 | the same over whole runs: in its loose phase the node takes all blocks, by its own clock, if and only if they are applicable one after another |
| FreshJoiner.UnconfiguredStaysLoose | chain/Chain.cpp:70-79 | a node without a configuration, taking blocks that set none, never comes to validate strictly |
| FreshJoiner.FreshJoinIff | server/MinerServer.cpp:422-475 | a fresh node at the last checkpoint of a chain without later configuration records takes the blocks from there on if and only if they are applicable to a node that knows nothing, and then holds the blocks and accounts of the running chain |
| FreshJoiner.UnsetScheduleStops | chain/Chain.cpp:554-563 | once its pair has rotated, a node whose slot schedule was never set takes no block any more |
| FreshJoiner.SwitchIff | chain/BlockValidation.cpp:502-580 | after the switch to strict validation a block that the running chain has just accepted passes if and only if the node's own stakes make its leader the leader and each renewal or ending is of an account it knows and old enough for its own deadline |
| Reload.RecordsReplay | chain/Chain.cpp:449-504 | records that were accepted are accepted again against the completed ledger, with the same accounts and configuration |
| Reload.BlockReplaysIff | chain/BlockValidation.cpp:502-580 | a block that the run accepted is accepted again if and only if its leader is the one for the stakes now known and it held the renewals now due |
| Reload.RestartIff | chain/Chain.cpp:449-504 | a restart from block 0 succeeds if and only if every block of the run was led by the one the stakes at the first block of its epoch choose and renewed what the complete ledger and the clock now demand of the accounts the run had before it; then it gives exactly the accounts and configuration of the run |
| Reload.RestartInStepIff | chain/Chain.cpp:412-447 | for a chain refreshed in step with its blocks the renewals alone decide |
| Reload.OldRestartIff | chain/BlockValidation.cpp:396-417 | once every block is older than the minimum age, at any clock: a restart succeeds if and only if every block renewed what the number of blocks alone demands |
| Reload.AgelessRestarts | chain/BlockValidation.cpp:396-417 | with no minimum age every chain refreshed in step restarts at any time and is restored exactly |
| Reload.MissedRenewalStopsRestart | chain/BlockValidation.cpp:396-417 | a block that did not renew an account last set minBlocks blocks before it or earlier stops every restart once the blocks are old |
| Reload.RestartIsSafe | chain/Chain.cpp:566-582 | a chain whose checkpoint settings never change restarts with a safe checkpoint pair, though not always the one it had |
| RestartCounterexample.RestartDependsOnClock | chain/BlockValidation.cpp:401-411 | a chain of three accepted blocks that can be restarted up to second 10 and never from second 11 on |
| Overlay.HandleLocal | chain/AccountBuffer.cpp:89-111 | a record depends only on the accounts it touches and changes no others: the same outcome on two banks that agree there |
| Overlay.OverlayStep | chain/DefaultTxHandler.cpp:47-96 | one record accepted on the overlay is accepted directly by what the overlay stands for, and leads to the same accounts |
| Overlay.OverlayRefines | chain/EndUserTxHandler.cpp:42-70 | records accepted one after another on an empty overlay, none touching an ended account, are accepted by the strict block path, which ends with the committed accounts overridden by the overlay minus the ended ones |
| Overlay.OverlayAgreesIff | chain/EndUserTxHandler.cpp:42-70 | of records accepted one after another on an empty overlay, none setting the configuration or ending the fee account: the strict block path accepts them if and only if none touches an account that an earlier one ended |
| EndedAccounts.PaymentToEndedAccount | server/Miner.cpp:263-274 | behind an accepted empty block the leader prepares its slot with four renewals, the fee account's passing behind the genesis account's and the last one ending the recycle account; their block is accepted; the overlay takes a payment to the ended account, and the block with it is refused at any time |
| Anchoring.HandleSets | chain/UserAccountUpsertBase.cpp:108-146 | an accepted record leaves every account as it was set, or sets it in this block with readable metadata |
| Anchoring.SetBlockHoldsMeta | chain/TxLedgerMeta.cpp:9-55 | the reverse scan of a block that set an account finds readable metadata of it |
| Anchoring.OfferKeepsAnchorsIff | chain/TxLedgerMeta.cpp:9-108 | an accepted block keeps each account's block id naming a ledger block with its readable metadata, and its wallet strong enough, if and only if genesis is gone or the block does it no harm |
| Anchoring.GenesisReadableIff | chain/TxLedgerMeta.cpp:32-55 | after an accepted block the genesis metadata can be read if and only if the block has no user update of genesis or carries genesis metadata |
| Anchoring.AnchorsHold | chain/TxLedgerMeta.cpp:9-108 | that holds in every state of every run whose user updates of genesis come with genesis metadata and enough keys |
| Anchoring.BootEstablishesAnchorsIff | chain/Chain.cpp:535-552 | the genesis block starts such runs if and only if its wallet has the keys that genesis renewals need |
| Renewals.AccountIdsBefore | chain/AccountBuffer.cpp:22-31 | the loop over the account map lists exactly the accounts set before a block, in increasing order |
| Renewals.CollectRenewals | chain/Chain.cpp:251-275 | the loop collects the renewals of all accounts past the deadline or the first error |
| RenewalAgreement.CreationSucceedsIff | chain/Chain.cpp:177-242 | for an account as runs leave it: when its record can be made, and whether it renews or ends it |
| RenewalAgreement.CollectedHandled | chain/RenewalTxHandler.cpp:85-125 | the record made for an account is accepted exactly when the account is renewable, whatever its predecessors did to other accounts |
| RenewalAgreement.FeeRenewalAcceptedIff | chain/TxLedgerMeta.cpp:90-98 | whatever native tokens earlier records have paid into the fee account, the record collected for it is accepted if and only if they are exactly its fee |
| RenewalAgreement.RecycleRecordAcceptedIff | chain/AccountBuffer.cpp:415-437 | the record collected for the recycle account is accepted if and only if ended accounts have left nothing in it, or, when it ends the account, not enough to pay |
| SmallRenewals.FeeRenewalStopsProducers | chain/Chain.cpp:251-275 | after an accepted block that renews the genesis account by itself, what is collected in any slot at any time starts with the fee account's record, and no miner can prepare a slot whatever is pending |
| RenewalAgreement.OverlayAcceptsIff | server/Miner.cpp:171-214 | the records collected for due accounts, fee and recycle account among them, offered in any order: all are accepted if and only if each passes behind those before it, which is a matter of what the others pay and leave |
| RenewalOrder.AllPassIff | chain/AccountBuffer.cpp:22-31 | in the order of the account map: the fee account passes exactly when its fee is what the genesis account pays if it is due and zero otherwise, the recycle account when the reserve leaves nothing in it, every other account when it is renewable |
| RenewalOrder.CollectedLeavesEndedAloneIff | chain/EndUserTxHandler.cpp:42-70 | the collected records touch no ended account unless the recycle account is ended before another one that would have to end in it |
| RenewalBlocks.CollectedIsComplete | chain/BlockValidation.cpp:420-500 | the collected records renew or end exactly the accounts the validator demands, none too early |
| RenewalBlocks.CollectingSucceedsIff | chain/Chain.cpp:251-275 | collection succeeds exactly when every due account's fee can be computed and taken |
| RenewalBlocks.ProducerAgrees | server/Miner.cpp:171-214 | whatever is pending and whoever is due, the leader prepares its slot exactly when every due account passes by its condition and the pending transactions pass again on top; what it prepared meets the validator's renewal rule, and its beginnings pass the strict block path exactly as far as they touch no ended account |
| RenewalBlocks.RunsStayReady | chain/Chain.cpp:506-585 | of the hypotheses of that agreement, bounded balances and readable metadata hold in every state of every run of ordinary records and harmless blocks |
| RenewalBlocks.GenesisRenewalStopsIff | chain/TxLedgerMeta.cpp:32-55 | after an accepted block the genesis renewal fails for want of metadata if and only if the block has a user update of genesis and no record with genesis metadata |
| ChainCounterexamples.GenesisUpdateAccepted | chain/UserAccountUpsertBase.cpp:87-129 | an accepted block with a user update of genesis, after which the renewal of genesis cannot be made |
| RenewalBlocks.BinaryCarries | chain/Chain.cpp:226-241 | what the agreement assumes of the codec holds of the program's binary one |
| Mining.PreparedIsSound | server/Miner.cpp:171-214 | after preparation the strict block path would accept renewals and pending transactions and lead to what the overlay stands for |
| Mining.AcceptedKeepsSound | server/Miner.cpp:263-274 | an accepted transaction keeps that |
| Mining.HandleFailureKeeps | chain/AccountBuffer.cpp:397-408 | a failing handler has changed nothing when the fee account has room |
| Mining.RejectedKeepsSound | server/Miner.cpp:263-274 | a rejected transaction may leave copies in the overlay but changes nothing it stands for |
| Mining.SlotYieldsValidRecords | server/Miner.cpp:216-256 | from preparing the slot through any fair transactions to the block: its records apply strictly if and only if none touches an account that an earlier one ended |
| Mining.SecondTryIff | server/Miner.cpp:216-256 | trying again in a slot in which a block was cut cuts another one, of the renewals alone, if and only if there are any and the block was not marked |
| Mining.TransactionSetWithinLimitIff | server/Miner.cpp:297-315 | the chosen records keep the block limit exactly when the renewals alone do or are all renewal records |
| SmallRenewals.EndingsExceedLimit | server/Miner.cpp:297-315 | behind an empty block the four renewals collected, one of them an ending, exceed a limit of one |
| Mining.CreatedBlockContinues | server/Miner.cpp:317-345 | the created block has the index, previous hash and transaction count that validation demands |
| ProducedBlocks.ProcessedIff | chain/Chain.cpp:587-681 | records that the handlers accept are processed by the chain if and only if each record's signer is there, with keys that verify, among the accounts its predecessors leave |
| ProducedBlocks.KeptSignersHold | chain/Chain.cpp:644-681 | which is so when no record ends the signer of a later one or changes its keys |
| ProducedBlocks.ProducedBlockAcceptedIff | server/Miner.cpp:171-345 | the slot from end to end, whatever was pending before and whoever is due: the chain's addBlock accepts the block a leader cuts if and only if the chosen transactions are allowed as renewals go, no two share a key, the limit is kept, no record touches an account that an earlier one ended, and the signers hold |
| ProducedBlocks.PendingIgnored | server/Miner.cpp:263-274 | whether a transaction is taken does not depend on what is pending |
| Producing.ProducesIff | server/Miner.cpp:216-256 | a block is cut if and only if none is marked for the slot, the slot is prepared for a leader or can be with something to put into a block, and it is time |
| Producing.ProducedSays | server/Miner.cpp:297-345 | every field of the block, and how many pending transactions it takes behind the renewals, in order |
| Producing.PreparedIs | server/Miner.cpp:171-214 | what preparing a slot leaves, when it succeeds and when it fails |
| Producing.RenewalMadeIff | chain/Chain.cpp:177-242 | which record is made for an account that is due: an ending exactly when it holds less than the fee and nothing negative, else a renewal exactly when its metadata can be read and its balance can go down by the fee |
| Forwarding.NothingLost | server/Miner.cpp:216-256 | a block's records and what is newly forwarded are together the renewals and the pending transactions, in order; without a block nothing moves |
| Forwarding.EveryTransactionIsSomewhere | server/Miner.cpp:258-287 | over every course of takes, tries, marks, forwards and drains each transaction is in exactly one place, as often as it came in: a block, pending, to be forwarded, or handed on |
| ChainCounterexamples.MempoolTakesKeyTwice | server/Miner.cpp:263-274 | a transaction with an idempotency key is taken twice; the block cut from that fails validation for the repeated key, the block that holds it once is accepted |
| SpentRecords.SpentIsRefused | chain/TxIdempotency.cpp:53-98 | a record whose window has passed, or whose key an earlier block of its window holds, is refused by every overlay |
| SpentRecords.SpentForGood | chain/TxIdempotency.cpp:53-98 | however the chain grows and whatever slot comes |
| SpentRecords.SpentStopsProducer | server/Miner.cpp:171-256 | a miner that has such a record pending prepares no slot it leads and produces no block any more, whatever it is asked to do |
| ChainCounterexamples.TakenIsSpentLater | server/Miner.cpp:263-274 | a transaction taken in slot 5, valid until slot 10, has that effect from slot 11 on |
| Miners.Miner.InitSlotCache | server/Miner.cpp:171-214 | overlay, renewals and slot cache change in place as the functions say; a failure forgets the slot |
| Miners.Miner.ProduceBlock | server/Miner.cpp:216-256 | the complete outcome: nothing in the slot of the block last marked as produced, else which records, what is forwarded, what a failure leaves |
| Ouroboros.TimingIffSlot | consensus/Ouroboros.cpp:53-80 | from genesis on, timing is valid for a representable slot exactly when the slot is the timestamp's own |
| Ouroboros.OwnSlotIff | consensus/Ouroboros.cpp:53-80 | for every timestamp from genesis on and every slot: it is the timestamp's own if and only if its timing is valid and its offset representable |
| Ouroboros.AcceptedSlotIsOwnIff | consensus/Ouroboros.cpp:219-225 | a slot that the timing check accepts is the timestamp's own if and only if its offset is representable |
| Ouroboros.TimingWraps | consensus/Ouroboros.cpp:74-80 | a slot beyond that range that is accepted |
| Ouroboros.TimestampsFollowSlots | consensus/Ouroboros.cpp:219-225 | blocks in later slots carry later timestamps |
| LeaderSelection.OrderIrrelevant | consensus/Ouroboros.cpp:145-156 | the registered stakes do not depend on the order of the stakeholders |
| LeaderSelection.GetEligibleLeaderPool | consensus/Ouroboros.cpp:158-184 | the pool is the first hundred of the positive stakeholders ranked by stake, then id |
| LeaderSelection.PoolUnique | consensus/Ouroboros.cpp:158-184 | there is only one such pool |
| LeaderSelection.PoolSize | consensus/Ouroboros.cpp:158-184 | it has min(100, positive stakeholders) members |
| LeaderSelection.SelectSlotLeader | consensus/Ouroboros.cpp:186-202 | the leader is the member of the pool whose place is the remainder of the hash, holds stake if anybody does, and is 0 if nobody does |
| LeaderSelection.HashPicks | consensus/Ouroboros.cpp:199-201 | a hash that leaves the remainder k picks the k-th of the ranking |
| LeaderSelection.EveryMemberLeads | consensus/Ouroboros.cpp:199-201 | every member of the pool leads for some hash |
| LeaderSelection.SameLeaderIff | consensus/Ouroboros.cpp:199-201 | two hashes pick the same leader exactly when they leave the same remainder |
| LeaderSelection.PoolMeaning | consensus/Ouroboros.cpp:158-184 | a member of the pool ranks before every later one and every stakeholder outside, who is there only if the pool has a hundred members |
| LeaderSelection.LeaderCanonical | consensus/Ouroboros.cpp:149-202 | equal stakeholder sets in any order give the same pool and, for every digest, the same leader in every slot and epoch |
| TxSearch.FindTransactionByIndex | chain/Chain.cpp:338-406 | the halving search returns the record at that place of all blocks' records joined, empty blocks included, and fails exactly outside the stored range |
| TxSearch.RunsAreCounted | chain/BlockValidation.cpp:302-309 | the ledger of every run counts its records as the search needs |
| TxSearch.FindTransactionsByWalletId | chain/Chain.cpp:296-336 | the scanning loop returns the page the recursive definition gives |
| TxSearch.PageMeaning | chain/Chain.cpp:310-334 | a page and what lies before its new cursor make up what lay before the old one, and the cursor goes down |
| TxSearch.PagesCoverHistory | chain/Chain.cpp:296-336 | paging until the cursor is 0 yields every matching record exactly once, newest first |
| TxSearch.PageEnds | chain/Chain.cpp:310-334 | a page ends where it has 32 records, after 32 blocks, or with block 0 |
| TxSearch.MatchesWhatTouches | chain/DefaultTxHandler.cpp:21-32 | the records in a wallet's history are those that may touch its account, but fees do not count for the fee account nor endings for the recycle account |
| FileFormat.AdvanceMeaning | ledger/FileStore.cpp:426-437 | the wrapping arithmetic of a scan step sees that a frame does not fit exactly when the frame's end is representable |
| FileFormat.ScanRebuildsIff | ledger/FileStore.cpp:395-451 | scanning complete frames and an incomplete one yields exactly the index of the complete ones if and only if the incomplete one claims a representable end |
| FileLaws.WriteRepresentsIff | ledger/FileStore.cpp:125-195 | an append adds the block to the file, and keeps the in-memory index right exactly when it was built or the file was empty |
| StoreCounterexamples.WriteLosesIndex | ledger/FileStore.cpp:171-173 | a mounted file whose index an append loses |
| FileLaws.ReadReturns | ledger/FileStore.cpp:461-502 | reading returns exactly the block appended at that place and nothing beyond the last |
| FileLaws.RewindRepresents | ledger/FileStore.cpp:512-576 | truncation leaves exactly the blocks before the index |
| FileLaws.MountRepresents | ledger/FileStore.cpp:51-97 | a mounted file stands for the same blocks |
| FileLaws.MountAfterTornWriteIff | ledger/FileStore.cpp:395-451 | a file that ends in an incomplete block counts exactly its complete blocks, whatever its header says, if and only if that block claims a representable end |
| FileLaws.OnesAreCounted | ledger/FileStore.cpp:426-437 | eight bytes of ones at the end are counted as a block |
| FileLaws.ScanMayNotEnd | ledger/FileStore.cpp:426-437 | a size eight below 2^64 keeps the scan in its loop for ever |
| FileLaws.AppendSurvivesIff | ledger/FileStore.cpp:125-195 | a block appended behind torn bytes reads back while the object lives; a later mount finds it where it was written if and only if nothing was torn |
| FileLaws.RunsRebuild | ledger/FileStore.cpp:125-195 | for every run of appends, truncations and reads, scanning the bytes rebuilds exactly the index and count in memory |
| FileStores.FileStore.Write | ledger/FileStore.cpp:125-195 | the object's append adds the block to the list it stands for, when the index was built |
| FileStores.FileStore.BuildBlockIndex | ledger/FileStore.cpp:395-451 | the scan loop with its wrapping offset, where it ends |
| StoreOutcomes.FileTakesIff | ledger/FileStore.cpp:99-195 | a file takes a block if and only if it stays within its limit with the block and eight bytes |
| StoreOutcomes.FileOpensIff | ledger/FileStore.cpp:15-97 | which files are created and mounted, down to the bytes of their headers |
| Ranges.LookupUnique | ledger/FileDirStore.cpp:377-396 | at most one file range holds a block, so the order of the unordered map does not matter |
| Ranges.FindMeaning | ledger/DirDirStore.cpp:597-617 | the lookup finds a block exactly when it is below the total, and at its place |
| FileDirLaws.AppendBlockMeaning | ledger/FileDirStore.cpp:221-247 | an accepted append adds exactly this block, rolling over to a new file if needed; a refused one changes nothing |
| FileDirLaws.CanFitTellsIff | ledger/FileDirStore.cpp:113-141 | for every directory and block, the check tells whether the append succeeds if and only if the directory neither has its last file open with room in it nor needs a new file for a block within 32 bytes of the limit |
| StoreOutcomes.DirectoryTakesIff | ledger/FileDirStore.cpp:221-247 | a directory takes a block if and only if it fits into the current file, or another file is allowed and it fits into a new one; a new file is begun only when it must |
| StoreCounterexamples.OneFileDirectory | ledger/FileDirStore.cpp:113-141 | a directory that denies a block it takes, and that truncating to its own count empties |
| StoreCounterexamples.AdmitsTooMuch | ledger/FileDirStore.cpp:113-141 | a new directory that admits a block and refuses it |
| FileDirLaws.ReadBlockMeaning | ledger/FileDirStore.cpp:145-171 | reading returns the block of the list |
| FileDirLaws.RewindDirMeaning | ledger/FileDirStore.cpp:249-297 | truncation below the count leaves the prefix, truncation to the count itself drops everything |
| FileDirLaws.MountDirMeaning | ledger/FileDirStore.cpp:398-473 | mounting the saved index over the files gives the same blocks |
| FileDirLaws.ReadLastMakesReady | ledger/FileStore.cpp:171-173 | after mounting, reading the last block is what makes the next append safe |
| FileDirStores.FileDirStore.AppendBlock | ledger/FileDirStore.cpp:221-247 | the object's append adds exactly this block to the list it contains, or changes nothing |
| FileDirStores.FileDirStore.FindBlockFile | ledger/FileDirStore.cpp:377-396 | the loop over the map in any order returns what the ordered lookup returns |
| FileDirStores.FileDirStore.RewindTo | ledger/FileDirStore.cpp:249-297 | the object's truncation leaves the prefix of the list it contains, or nothing at its own count |
| FileDirStores.FileDirStore.Mount | ledger/FileDirStore.cpp:64-111 | the mount loops over the listed files |
| DirDirLaws.AppendStoreMeaning | ledger/DirDirStore.cpp:291-336 | an accepted append adds exactly this block across file rollover, relocation and new subdirectories; a refused one changes nothing |
| StoreOutcomes.StorePlaces | ledger/DirDirStore.cpp:291-336 | where a block goes: the root directory while another file is allowed there, else subdirectories, each left for the next in the same case |
| DirDirLaws.RelocatedKeeps | ledger/DirDirStore.cpp:404-439 | relocating the root changes none of the blocks |
| DirDirLaws.LoneDirectoryIff | ledger/DirDirStore.cpp:441-518 | with one subdirectory allowed, relocation leaves a store that is safe to append to exactly when the current file was empty |
| StoreCounterexamples.RelocationLosesIndex | ledger/DirDirStore.cpp:404-518 | a store that is no longer safe after relocation |
| DirDirLaws.ReadStoreMeaning | ledger/DirDirStore.cpp:261-289 | reading returns the block of the list |
| DirDirLaws.RewindStoreMeaning | ledger/DirDirStore.cpp:338-402 | truncation below the count leaves the prefix, truncation to the count itself drops everything |
| DirDirLaws.MountStoreIff | ledger/DirDirStore.cpp:619-725 | what an orderly shutdown saved mounts to the same list, except for a relocated store emptied of subdirectories |
| StoreCounterexamples.TruncatedStoreIsLost | ledger/DirDirStore.cpp:338-402 | a store of two blocks that truncation to its own count empties and that then cannot be mounted |
| DirDirLaws.ReadLastMakesStoreReady | ledger/Ledger.cpp:360-365 | a mounted store is safe to append to once its last block was read |
| StoreRuns.StoreRefinesList | ledger/DirDirStore.cpp:261-437 | for every run of appends, reads, truncations and remounts the store reads and appends like the plain list |
| StoreRuns.NonEmptyMounts | ledger/DirDirStore.cpp:826-900 | a store in use that is not empty always mounts again |
| DirDirStores.DirDirStore.Append | ledger/DirDirStore.cpp:291-336 | the object's append adds exactly this block to the list it contains, or changes nothing |
| DirDirStores.DirDirStore.FindBlockDir | ledger/DirDirStore.cpp:597-617 | the loop over the map in any order returns what the ordered lookup returns |
| DirDirStores.DirDirStore.Rewind | ledger/DirDirStore.cpp:338-402 | the object's truncation leaves the prefix of the list it contains, or nothing at its own count |
| DirDirStores.DirDirStore.Mount | ledger/DirDirStore.cpp:96-161 | the mount of the root or of each listed subdirectory |
| LedgerLaws.AddNodeMeaning | ledger/Ledger.cpp:370-392 | an added block is the ledger's new last block, a refused one changes nothing |
| LedgerLaws.ReadNodeMeaning | ledger/Ledger.cpp:440-498 | block start + i reads as the i-th node added, from the cache or the store, and every other id is refused: the ledger the chain sees |
| LedgerLaws.MountLedgerMeaning | ledger/Ledger.cpp:320-368 | a fresh object mounted on the saved state holds the same nodes |
| LedgerLaws.StaleCacheIff | ledger/Ledger.cpp:440-460 | an object that keeps its old cache over a mount reads the last block right exactly when the cache was empty or already held it |
| StoreCounterexamples.StaleCacheAnswersWrong | ledger/Ledger.cpp:440-460 | a ledger of one block that answers with another |
| LedgerLaws.LedgerReadsBack | ledger/Ledger.cpp:370-498 | after any run of additions, reads and remounts, block start + i reads back as the i-th node added |
| LedgerStore.Ledger.AddBlock | ledger/Ledger.cpp:370-392 | the object's addition extends the list of nodes it contains by exactly this one, or changes nothing |
| LedgerStore.Ledger.ReadBlock | ledger/Ledger.cpp:440-498 | the object's read returns the node of the list it contains |
| LedgerStore.Ledger.FindBlockByTimestamp | ledger/Ledger.cpp:623-647 | the search loop over real reads finds what the search over the list finds |
| LedgerStore.Ledger.UpdateCheckpoints | ledger/Ledger.cpp:394-438 | checkpoints change only to an increasing list of existing blocks that extends the recorded one |
| Archive.PackRoundTrip | lib/common/Serialize.hpp:198-288 | for numbers, strings, vectors, maps and structs nested in any way: unpacking what was packed returns the value and consumes exactly its bytes, if and only if no string exceeds 64 MB |
| Archive.PackInjective | lib/common/Serialize.hpp:198-288 | two values of one shape with the same bytes are equal |
| Archive.UnpackedShape | lib/common/Serialize.hpp:581-660 | whatever is read has the shape asked for and only strings within the limit |
| Archives.OutputArchive.Write | lib/common/Serialize.hpp:133-288 | the output archive appends exactly the packed bytes to its stream |
| Archives.InputArchive.Read | lib/common/Serialize.hpp:462-660 | the input archive consumes its stream and sets its failure flag as the function says |
| ChainCodec.BlockRoundTrip | ledger/Ledger.cpp:31-67 | a stored block reads back as itself exactly when its strings are within the limit |
| ChainCodec.BlockBytesInjective | ledger/Ledger.cpp:31-40 | the bytes that are hashed determine every field of a block |
| ChainCodec.NodeRoundTrip | ledger/Ledger.cpp:500-518 | a stored node reads back as itself exactly when packed block and hash are within the limit |
| ChainCodec.TxRoundTrip | ledger/Ledger.cpp:165-228 | a record of a packed transaction of any kind decodes to it, whatever its signatures |
| WireFormat.WordDigits | lib/common/Serialize.hpp:133-197 | every byte of a packed number is its digit to the base 256, the most significant first |
| WireFormat.BlockLayout | ledger/Ledger.cpp:31-67 | the bytes of a block, field by field |
| WireFormat.TxLayout | ledger/Ledger.cpp:165-228 | the bytes of a transaction of each kind, and its type |
| WireFormat.UserAccountLayout | client/Client.cpp:60-82 | the bytes of an account's metadata |
| WireFormat.GenesisMetaLayout | chain/Types.cpp:29-50 | the bytes of the genesis account's, with the configuration |
| WireFormat.StringReadIff | lib/common/Serialize.hpp:581-600 | which strings are read |
| WireFormat.VersionsRead | ledger/Ledger.cpp:42-67 | which versions of blocks and accounts are read |
| AccountCodec.EntriesRoundTrip | lib/common/Serialize.hpp:239-251 | the packed entries of a map give the map back |
| AccountCodec.EntriesIncrease | lib/common/Serialize.hpp:239-251 | they come in strictly increasing order, so a map has one packed form |
| AccountCodec.UserAccountRoundTrip | client/Client.cpp:60-82 | a packed user account reads back as itself exactly when within the limit, behind its version |
| AccountCodec.GenesisMetaRoundTrip | chain/Types.cpp:29-50 | the same for the genesis metadata with its configuration |
| BinaryCodec.BinaryReadsBack | ledger/Ledger.cpp:165-228 | the codec the chain theorems are parametrised by, instantiated with the program's, reads back what it packs |
| PackedSizes.UserAccountLength | lib/common/Serialize.hpp:198-288 | the exact length of a packed user account |
| PackedSizes.BinaryWindows | ledger/Ledger.cpp:165-228 | the windows of whatever records the program decodes are 64-bit, as the theorems about runs assume |
| PackedSizes.BinaryBalances | chain/Types.cpp:29-50 | so are the balances of whatever metadata it decodes |
| SmallChain.Boots | chain/Chain.cpp:506-552 | a genesis block packed by the program is accepted by a new chain, with exactly these accounts |
| BinaryCodec.HashDeterminesBlock | chain/BlockValidation.cpp:34-36 | under a collision-free digest equal hashes mean equal blocks |
| BinaryCodec.LastHashDeterminesHistory | chain/BlockValidation.cpp:260-313 | under a collision-free digest two linked chains of one length that end in the same hash are equal |
| MetaCodec.ValueRoundTrip | lib/common/Meta.cpp:52-177 | a tagged value reads back as itself to any depth, null values as empty maps |
| MetaCodec.MetaRoundTrip | lib/common/Meta.h:60-100 | unpacking packed metadata returns it, null values as empty maps, and consumes exactly its bytes, if and only if every key and packed value of the outermost map is within the limit |
| MetaCodec.UnpackedIsWellFormed | lib/common/Meta.h:65-90 | whatever bytes are read, the keys of the result are distinct and in order at every depth, and no value is null |
| WireFormat.MetaLayout | lib/common/Meta.cpp:52-91 | the bytes of tagged metadata, entry by entry |
| WireFormat.TextLayout | lib/common/io/Json.cpp:130-192 | the compact text of maps and lists |
| MetaReader.ReadMeta | lib/common/Meta.h:65-90 | the reading loop, which empties the map without failing on a repeated key |
| MetaReader.ReadValue | lib/common/Meta.cpp:92-177 | the reading of a tagged value with its loop over array elements |
| JsonLaws.StringBack | lib/common/io/Json.cpp:90-128 | every string, escaped, parses back |
| JsonLaws.JsonRoundTrip | lib/common/io/Json.cpp:19-490 | in every layout the text of metadata without doubles parses to that metadata, non-negative signed integers as unsigned ones |
| JsonLaws.RereadPrintsSame | lib/common/io/Json.cpp:130-192 | what was read back prints the same text |
| JsonPrinter.MetaToJsonString | lib/common/io/Json.cpp:465-485 | the printers, appending to a growing string, print that text |
| JsonParser.MetaFromJsonString | lib/common/io/Json.cpp:194-490 | the parser, advancing its position in loops, returns what the parsing functions return for the leading object, and ignores what follows it |

## Left out

Contracts stated for fewer inputs or weaker than one might expect, by member:

- AccountBuffers.AccountBuffer.TransferBalance: amounts are exact integers; `amount + fee` beyond the signed 64-bit range, undefined in the source, is not modelled (`BalanceBounds.TransferArithmeticFits` says that nothing else overflows).
- AccountBuffers.AccountBuffer.CheckSpendingPower: the same.
- TxHandlerMethods.ApplyDefaultTransferLoose: the same.
- AccountBuffers.AccountBuffer.WriteOffAccount: the unchecked addition is exact; `BalanceBounds.WriteOffKeepsBounds` says when it fits.
- Runs.BaseHolds: runs offer blocks at the tip of the ledger, in increasing slots whose offsets are representable; the source accepts any index up to the next one and does not compare slots. The same holds of every theorem about runs below.
- Supply.SupplyHolds: for runs whose records conserve (`Conservation.ConservesIff`), whose updates and renewals take no account below zero (`BalanceBounds.ReplaceBoundedIff`), and which end no account that holds a token owed at the very bottom of the 64-bit range; `Conservation.RunConserves` needs the first of these only.
- CheckpointSafety.CheckpointHolds: a block that moves the last checkpoint finds checkpoint settings of at least two blocks, does not lower them, and the sums with them do not wrap; nothing is asked of other blocks.
- AtMostOnce.NoRecordTwice: the records of the genesis block are not compared with one another, as in the source.
- Anchoring.AnchorsHold: for runs of blocks that do the genesis account no harm; `Anchoring.OfferKeepsAnchorsIff` says that this is exactly what is needed.
- CheckpointSync.CheckpointSyncIsExact: for a last checkpoint behind block 0; `Reload.RestartIff` is the other case, for a new object. `SyncGuards.CheckpointSyncIff` says when the load succeeds.
- LateJoiner.ReplaySimulates: for blocks that do not end the fee account, and for replays that succeed; `SyncGuards.ReplaySucceedsIff` says which do.
- SyncGuards.CheckpointSyncIff: for blocks that do not end the fee account, and a joiner with no configuration or the chain's own.
- FreshJoiner.FreshJoinIff: for blocks from the checkpoint on that set no configuration and do not end the fee account; `FreshJoiner.TakeIff` is for any whose configuration does not rotate the node's pair of checkpoints.
- FreshJoiner.SwitchIff: validation after the switch, with the clock of the running chain's acceptance and the same configuration and schedule; the strict handlers on accounts that lack some of the running chain's are not compared.
- RejectedBlocks.StampsHold: rejected blocks bear the next number or a later one; `RejectedCounterexamples.GenesisReconfigures` is one that bears 0. The same holds of `RejectedBlocks.OnceHoldsAll` and `RejectedBlocks.TotalsHold`.
- Reload.RestartIsSafe: for chains whose checkpoint settings never change and span at least two blocks.
- Overlay.OverlayRefines: for records without configuration updates that touch no account ended earlier; `Overlay.OverlayAgreesIff` says that the block path refuses all others, records that end the fee account aside. Signature checks, which read the committed accounts on one path and the running ones on the other, are outside both (`ProducedBlocks.ProcessedIff` has them).
- Overlay.OverlayAgreesIff: for records that set no configuration and do not end the fee account.
- RenewalBlocks.ProducerAgrees: the fee account exists and has room for the fees that are due, and the clock is read once; the part about the block path is for pending transactions that set no configuration and do not end the fee account.
- ProducedBlocks.ProducedBlockAcceptedIff: under the same conditions, for transactions that set no configuration, do not end the fee account and leave room in it, and a block cut by the leader in time.
- StoreRuns.StoreRefinesList: more than one subdirectory is allowed (`DirDirLaws.LoneDirectoryIff` is the other case); nested top stores are not modelled, reaching the limit of subdirectories is a failed append.
- DirDirLaws.AppendStoreMeaning: the same.
- DirDirStores.DirDirStore.Append: the same.
- DirDirLaws.MountStoreIff: mounting is modelled after an orderly shutdown; index files are values, not bytes, and files left behind by a truncation are not on the modelled disk.
- FileDirStores.FileDirStore.Mount: a listed file that is missing makes the mount fail, where the source skips it.
- DirDirStores.DirDirStore.Mount: the same for a listed subdirectory.
- FileFormat.ScanRebuildsIff: file size limits are below 2^63, as file offsets are signed; where the scan's signed sum overflows, which the source leaves undefined, it is taken to wrap; the host is little-endian.
- TxSearch.FindTransactionByIndex: block reads succeed for every block of the ledger.
- TxSearch.FindTransactionsByWalletId: block reads succeed for every block of the ledger.
- Chains.Chain.Load: an unset slot schedule, on which the source divides by zero, is an error.
- Chains.Chain.Add: appending to the ledger is taken to succeed.
- Miners.Miner.ProduceBlock: the slot, whether the miner leads it, the clock, the production time and the signing function are parameters.
- LeaderSelection.SelectSlotLeader: the first 64 bits of the digest are a parameter; sorting is by insertion.
- MetaCodec.MetaRoundTrip: doubles are bit patterns.
- JsonLaws.JsonRoundTrip: doubles have printing and reading as parameters and are not round-tripped; `indent * depth` does not overflow.
- Archives.InputArchive.Read: an absurd element count, for which the source would try to reserve memory, is a failed read.

- ChainCounterexamples.SelfPaymentCreates: like every witness on the small chain, with signatures taken to be good and one leader for every slot.

Not modelled at all:

- Balance bounds, supply, anchors, restart and late joiners after rejected blocks: the theorems about these are for runs in which every block is accepted (`RejectedCounterexamples.StampWithoutBlock` shows that anchors may then be lost).
- Ids of files and directories do not wrap at 32 bits, block ids not at 64.
- Byte counts from a block id on (`countSizeFromBlockId`): a sum that nothing else in the chain uses.
- SHA-256 and Ed25519 are uninterpreted functions; collision-freedom is assumed where a lemma names it.
- Sockets, HTTP, discovery, command-line programs, configuration files, logging, error texts, time calibration.
- The unused consensus classes: VRF, epoch nonce, epoch manager, slot timer.
