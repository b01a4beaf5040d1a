/** From the producer's mempool to the validators' chain: when a block that a miner cuts is accepted by `addBlock`. */
module ProducedBlocks {
  import opened Numbers
  import opened Outcomes
  import opened ChainTypes
  import opened Bank
  import opened BalanceBounds
  import opened LedgerView
  import opened TxHandlers
  import opened TxIdempotency
  import opened TxSignatures
  import opened BlockValidation
  import opened ChainSpec
  import opened Runs
  import opened Overlay
  import opened Renewals
  import opened Mining
  import opened RenewalBlocks
  import opened RenewalOrder
  import LateJoiner
  import Ouroboros

  // ----- signatures along the block -----

  /** The accounts that the first `i` records leave, on the strict block path. */
  function AccountsAt(v: View, records: seq<Record>, i: nat): Accounts
    requires i <= |records|
  {
    BlockRun(v.Cx(), v.Committed(), records[..i], v.BlockId(), v.slot).0
  }

  predicate SignedAt(v: View, leader: Id, records: seq<Record>, i: nat)
    requires i < |records|
  {
    ValidateTxSignatures(v.codec, AccountsAt(v, records, i), records[i], leader, true).Done?
  }

  /** Each record's signer is there, with keys that verify its signatures, among the accounts its predecessors leave. */
  predicate SignersHold(v: View, leader: Id, records: seq<Record>) {
    forall i: nat | i < |records| :: SignedAt(v, leader, records, i)
  }

  lemma OneRecordRun(cx: Context, b: Accounts, rec: Record, rest: seq<Record>, blockId: nat, slot: nat)
    requires BlockRun(cx, b, [rec] + rest, blockId, slot).1.Done?
    ensures cx.codec.decode(rec).Some? && !cx.codec.decode(rec).value.TxGenesis?
    ensures ApplyAccounts(cx, cx.codec.decode(rec).value, b, blockId, slot, true) == BlockRun(cx, b, [rec], blockId, slot)
    ensures BlockRun(cx, b, [rec], blockId, slot).1.Done?
  {
    hide ApplyAccounts;
    assert ([rec] + rest)[0] == rec && [rec][1..] == [];
  }

  lemma OneMoreRecord(v: View, records: seq<Record>, i: nat)
    requires i < |records| && BlockRun(v.Cx(), v.Committed(), records, v.BlockId(), v.slot).1.Done?
    ensures v.codec.decode(records[i]).Some? && !v.codec.decode(records[i]).value.TxGenesis?
    ensures ApplyAccounts(v.Cx(), v.codec.decode(records[i]).value, AccountsAt(v, records, i), v.BlockId(), v.slot, true)
         == (AccountsAt(v, records, i + 1), Done)
  {
    hide ApplyAccounts, BlockRun;
    var cx, b := v.Cx(), v.Committed();
    assert records[..i] + records[i..] == records;
    BlockRunJoins(cx, b, records[..i], records[i..], v.BlockId(), v.slot);
    assert [records[i]] + records[i + 1..] == records[i..];
    OneRecordRun(cx, AccountsAt(v, records, i), records[i], records[i + 1..], v.BlockId(), v.slot);
    assert records[..i] + [records[i]] == records[..i + 1];
    BlockRunJoins(cx, b, records[..i], [records[i]], v.BlockId(), v.slot);
  }

  /** The signature checks of block processing, seen from the accounts the handlers lead to. */
  lemma {:induction false} SignedInTurnIff(v: View, leader: Id, block: Block, i: nat)
    requires i <= |block.records| && block.index == v.BlockId() && block.slot == v.slot && block.slotLeader == leader
    requires BlockRun(v.Cx(), v.Committed(), block.records, v.BlockId(), v.slot).1.Done? && NoConfig(v.codec, block.records)
    ensures SignedInTurn(v.codec, v.chain.ledger, v.chain.world.(accounts := AccountsAt(v, block.records, i)), block, i)
       <==> forall j: nat | i <= j < |block.records| :: SignedAt(v, leader, block.records, j)
    decreases |block.records| - i
  {
    hide ApplyAccounts, ValidateTxSignatures, BlockRun;
    if i < |block.records| {
      OneMoreRecord(v, block.records, i);
      SignedInTurnIff(v, leader, block, i + 1);
      var w := v.chain.world.(accounts := AccountsAt(v, block.records, i));
      assert ContextOf(v.codec, v.chain.ledger, w) == v.Cx();
      if SignedAt(v, leader, block.records, i) {
        assert ProcessRecord(v.codec, v.chain.ledger, w, block.records[i], block, true).0
            == v.chain.world.(accounts := AccountsAt(v, block.records, i + 1));
      }
    }
  }

  lemma {:induction false} ProcessedIsSigned(codec: Codec, l: Ledger, w: World, block: Block, i: nat)
    requires i <= |block.records| && ProcessRecords(codec, l, w, block, i, true).1.Done?
    ensures SignedInTurn(codec, l, w, block, i)
    decreases |block.records| - i
  {
    hide ApplyBlock, ValidateTxSignatures;
    if i < |block.records| {
      ProcessedIsSigned(codec, l, ProcessRecord(codec, l, w, block.records[i], block, true).0, block, i + 1);
    }
  }

  /** Records that the handlers accept are processed if and only if their signers hold. */
  lemma ProcessedIff(v: View, leader: Id, block: Block)
    requires block.index == v.BlockId() && block.slot == v.slot && block.slotLeader == leader
    requires BlockRun(v.Cx(), v.Committed(), block.records, v.BlockId(), v.slot).1.Done? && NoConfig(v.codec, block.records)
    ensures ProcessRecords(v.codec, v.chain.ledger, v.chain.world, block, 0, true).1.Done? <==> SignersHold(v, leader, block.records)
  {
    hide ProcessRecords, SignedInTurn, SignedAt;
    var l, w := v.chain.ledger, v.chain.world;
    SignedInTurnIff(v, leader, block, 0);
    NoRecordsYet(v, block.records);
    assert w.(accounts := AccountsAt(v, block.records, 0)) == w;
    assert block.records[0..] == block.records;
    if SignersHold(v, leader, block.records) {
      RecordsAreProcessed(v.codec, l, w, block, 0);
    } else if ProcessRecords(v.codec, l, w, block, 0, true).1.Done? {
      ProcessedIsSigned(v.codec, l, w, block, 0);
    }
  }

  /** What is processed has passed the handlers. */
  lemma {:induction false} ProcessedHasRun(codec: Codec, l: Ledger, w: World, block: Block, i: nat)
    requires i <= |block.records| && block.index != 0 && NoConfig(codec, block.records)
    requires ProcessRecords(codec, l, w, block, i, true).1.Done?
    ensures BlockRun(ContextOf(codec, l, w), w.accounts, block.records[i..], block.index, block.slot).1.Done?
    decreases |block.records| - i
  {
    hide ApplyAccounts, ValidateTxSignatures;
    if i < |block.records| {
      assert block.records[i..][0] == block.records[i] && block.records[i..][1..] == block.records[i + 1..];
      var next := ProcessRecord(codec, l, w, block.records[i], block, true).0;
      assert ContextOf(codec, l, next) == ContextOf(codec, l, w);
      ProcessedHasRun(codec, l, next, block, i + 1);
    }
  }

  /** Records that do not pass the handlers are not processed. */
  lemma UnrunIsRefused(v: View, block: Block)
    requires block.index == v.BlockId() && block.slot == v.slot && block.index != 0 && NoConfig(v.codec, block.records)
    requires BlockRun(v.Cx(), v.Committed(), block.records, v.BlockId(), v.slot).1.Failed?
    ensures ProcessRecords(v.codec, v.chain.ledger, v.chain.world, block, 0, true).1.Failed?
  {
    hide ProcessRecords, BlockRun;
    assert block.records[0..] == block.records;
    if ProcessRecords(v.codec, v.chain.ledger, v.chain.world, block, 0, true).1.Done? {
      ProcessedHasRun(v.codec, v.chain.ledger, v.chain.world, block, 0);
    }
  }

  lemma NoRecordsYet(v: View, records: seq<Record>)
    ensures AccountsAt(v, records, 0) == v.Committed()
  {
    assert records[..0] == [];
  }

  // ----- a simple way for the signers to hold -----

  predicate SameKeys(a: Account, b: Account) {
    && a.wallet.publicKeys == b.wallet.publicKeys && a.wallet.minSignatures == b.wallet.minSignatures
    && a.wallet.keyType == b.wallet.keyType
  }

  /** No record has ended the signer of a later one or changed its keys. */
  predicate SignersKept(v: View, leader: Id, records: seq<Record>) {
    forall i: nat | i < |records| && v.codec.decode(records[i]).Some? ::
      var signer := SignerOf(v.codec.decode(records[i]).value, leader);
      signer in v.Committed() ==>
        signer in AccountsAt(v, records, i) && SameKeys(AccountsAt(v, records, i)[signer], v.Committed()[signer])
  }

  predicate SignedAgainst(v: View, leader: Id, records: seq<Record>) {
    forall i | 0 <= i < |records| :: ValidateTxSignatures(v.codec, v.Committed(), records[i], leader, true).Done?
  }

  lemma KeptSignersHold(v: View, leader: Id, records: seq<Record>)
    requires SignedAgainst(v, leader, records) && SignersKept(v, leader, records) && v.Committed() != map[]
    ensures SignersHold(v, leader, records)
  {
    hide CheckSignatures, AccountsAt;
    forall i: nat | i < |records|
      ensures SignedAt(v, leader, records, i)
    {
      var tx := v.codec.decode(records[i]).value;
      SameKeysSameOutcome(v.codec, records[i], AccountsAt(v, records, i)[SignerOf(tx, leader)], v.Committed()[SignerOf(tx, leader)]);
    }
  }

  lemma SameKeysSameOutcome(codec: Codec, rec: Record, a: Account, b: Account)
    requires SameKeys(a, b)
    ensures CheckSignatures(codec, rec.data, rec.signatures, a) == CheckSignatures(codec, rec.data, rec.signatures, b)
  {
  }

  // ----- the mempool does not look for repeated keys -----

  /** Whether a transaction is taken depends on its signatures, the ledger and the overlay alone, whatever is pending. */
  lemma PendingIgnored(v: View, m: MinerState, rec: Record, pending: seq<Record>)
    ensures AddTransaction(v, m, rec).1 == AddTransaction(v, m.(pending := pending), rec).1
    ensures AddTransaction(v, m, rec).0.overlay == AddTransaction(v, m.(pending := pending), rec).0.overlay
  {
    hide AddBuffer;
  }

  /** No block with a repeated key is valid. */
  lemma RepeatedKeyRefused(v: View, node: ChainNode, now: int)
    requires !KeysDistinct(v.codec, node.block.records)
    ensures ValidateBlock(v.codec, v.chain, node, true, now).Failed?
  {
    hide ValidLeader, RenewalsComplete, KeysDistinct, MaxBlockIdForRenewal, CheckSequence;
  }

  // ----- the produced block -----

  /** A block at the tip offered to a chain that grew from its genesis block: validation, then the records. */
  lemma OfferedIff(v: View, node: ChainNode, now: int)
    requires BaseInvariant(v.chain) && node.block.index == v.BlockId()
    ensures AddBlock(v.codec, v.chain, node, now).1.Done? <==>
      && ValidateBlock(v.codec, v.chain, node, true, now).Done?
      && ProcessRecords(v.codec, v.chain.ledger, v.chain.world, node.block, 0, true).1.Done?
  {
    hide ProcessRecords, ValidateBlock, Linked, Orderly;
  }

  /** What the miner holds after preparing the slot and taking what it was offered. */
  function Filled(v: View, m: MinerState, now: int, sign: Bytes -> Option<seq<Bytes>>, offered: seq<Record>): MinerState {
    TakeAll(v, PrepareSlot(v, m, true, SignedRenewals(v, sign, now)).0, offered)
  }

  function Produced(v: View, m: MinerState, timestamp: int): Option<ChainNode> {
    if v.chain.world.config.None? then None
    else CreateBlock(v, m.minerId, TransactionSet(m, v.chain.world.config.value.maxTransactionsPerBlock).0, timestamp)
  }

  lemma TakingKeepsMiner(v: View, m: MinerState, offered: seq<Record>)
    ensures TakeAll(v, m, offered).minerId == m.minerId
    decreases |offered|
  {
    hide AddBuffer;
    if offered != [] {
      TakingKeepsMiner(v, AddTransaction(v, m, offered[0]).0, offered[1..]);
    }
  }

  lemma PreparedMiner(v: View, m: MinerState, signed: Option<seq<Record>>)
    ensures PrepareSlot(v, m, true, signed).0.minerId == m.minerId
  {
    hide AddBuffers;
  }

  /** The slot from end to end. The leader prepares it, with whatever was pending, takes fair transactions and cuts the block in
      time, the clock being read once; then the chain accepts the block if and only if the transactions that were chosen are
      allowed as renewals go, no two of them share an idempotency key, the block keeps its limit, no record touches an account
      that an earlier one has ended, and each record's signer still holds. */
  lemma ProducedBlockAcceptedIff(v: View, m: MinerState, now: int, sign: Bytes -> Option<seq<Bytes>>, offered: seq<Record>,
                                 timestamp: int)
    requires BaseInvariant(v.chain) && Settled(v, Deadline(v.Cx(), v.chain.checkpoint, now).value)
    requires SigningWorks(v, m.minerId, sign, now) && PrepareSlot(v, m, true, SignedRenewals(v, sign, now)).1.Done?
    requires NoConfig(v.codec, m.pending) && LateJoiner.KeepsFeeAccount(v.codec, m.pending)
    requires AllFair(v, PrepareSlot(v, m, true, SignedRenewals(v, sign, now)).0, offered)
    requires var node := Produced(v, Filled(v, m, now, sign, offered), timestamp);
      && node.Some? && v.chain.world.consensus.schedule.IsSet() && ValidLeader(v.codec, v.chain.world.consensus, node.value.block)
      && Ouroboros.ValidBlockTiming(v.chain.world.consensus.schedule, timestamp, v.slot)
    ensures var last := Filled(v, m, now, sign, offered); var node := Produced(v, last, timestamp).value;
      var chosen := last.pending[..TransactionSet(last, v.chain.world.config.value.maxTransactionsPerBlock).1];
      AddBlock(v.codec, v.chain, node, now).1.Done? <==>
        (&& (forall i | 0 <= i < |chosen| ::
               RenewalAllowed(v.codec, v.Committed(), Deadline(v.Cx(), v.chain.checkpoint, now).value, chosen[i]))
         && KeysDistinct(v.codec, chosen)
         && WithinLimit(v.chain.world.config.value, node.block.records)
         && LeavesEndedAlone(v.codec, node.block.records, {})
         && SignersHold(v, m.minerId, node.block.records))
  {
    hide Settled, SigningWorks, DuePass, AllFair, PrepareSlot, SignedRenewals, TakeAll, BaseInvariant, ValidLeader, Predictable,
      AddBlock, RenewalAllowed, KeysDistinct, WithinLimit, SignersHold, RenewalsComplete, MaxBlockIdForRenewal, BlockRun,
      NoConfig, ValidateBlock, ProcessRecords, Collected, LeavesEndedAlone, Ended, AddBuffers, RecycleEndsFirst, LateJoiner.KeepsFeeAccount;
    var max := v.chain.world.config.value.maxTransactionsPerBlock;
    var prepared := PrepareSlot(v, m, true, SignedRenewals(v, sign, now)).0;
    var last := Filled(v, m, now, sign, offered);
    var (records, n) := TransactionSet(last, max);
    TipKnown(v);
    CollectedDue(v.Cx(), v.Committed(), v.chain.checkpoint, now);
    ProducerAgrees(v, m, now, sign, last.pending[..n]);
    SettledIds(v, Deadline(v.Cx(), v.chain.checkpoint, now).value);
    TakingKeepsPredictable(v, prepared, offered);
    TakingKeepsMiner(v, prepared, offered);
    PreparedMiner(v, m, SignedRenewals(v, sign, now));
    BlockAppliesIff(v, last, max);
    CreatedBlockContinues(v, m.minerId, records, timestamp);
    var node := Produced(v, last, timestamp).value;
    OfferedIff(v, node, now);
    CreatedBlockAcceptedIff(v, m.minerId, records, timestamp, now);
    ValidateUnfolds(v, node, now);
    if LeavesEndedAlone(v.codec, records, {}) {
      ProcessedIff(v, m.minerId, node.block);
    } else {
      UnrunIsRefused(v, node.block);
    }
  }

  lemma ValidateUnfolds(v: View, node: ChainNode, now: int)
    ensures ValidateBlock(v.codec, v.chain, node, true, now)
         == ValidateNormalBlock(v.codec, v.chain.ledger, v.Committed(), v.chain.world.config, v.chain.world.consensus,
                                v.chain.checkpoint, node, true, now)
  {
  }

  lemma SettledIds(v: View, deadline: nat)
    requires Settled(v, deadline)
    ensures IdsMatch(v.Committed())
  {
    SettledMakesDue(v, deadline);
  }

  lemma TipKnown(v: View)
    requires BaseInvariant(v.chain)
    ensures v.chain.ledger.nodes != [] && v.chain.world.config.Some? && v.BlockId() > 0
    ensures v.chain.ledger.nodes[|v.chain.ledger.nodes| - 1].block.index + 1 == v.chain.ledger.Next()
  {
    var l := v.chain.ledger;
    assert l.Has(l.Next() - 1) && l.At(l.Next() - 1) == l.nodes[|l.nodes| - 1].block;
  }
}
