/** When a block is accepted, when records of it are on time, which accounts are due, and when the checkpoints move: each in terms of the
    block, the ledger, the configuration and the clock. */
module Acceptance {
  import opened Numbers
  import opened Outcomes
  import opened ChainTypes
  import opened Bank
  import opened LedgerView
  import opened TxFees
  import opened TxHandlers
  import opened TxIdempotency
  import opened BlockValidation
  import opened ChainSpec
  import opened Runs
  import opened AtMostOnce
  import Ouroboros

  // ----- which accounts are due -----

  /** The block that set an account last lies `minBlocks` blocks back or more, and is older than the minimum age. */
  predicate OldEnough(l: Ledger, config: BlockChainConfig, n: nat, now: int)
    requires l.Has(n)
  {
    && n + config.checkpoint.minBlocks <= l.Next()
    && (config.checkpoint.minAgeSeconds > 0 ==> l.At(n).timestamp < now - config.checkpoint.minAgeSeconds)
  }

  /** The demand is dropped when checkpoints span less than two blocks and no block is young any more. */
  ghost predicate NoDemand(l: Ledger, config: BlockChainConfig, now: int) {
    config.checkpoint.minBlocks <= 1 &&
    (config.checkpoint.minAgeSeconds > 0 ==> forall i | l.Has(i) :: l.At(i).timestamp < now - config.checkpoint.minAgeSeconds)
  }

  ghost predicate InOrder(l: Ledger) {
    l.start == 0 && l.nodes != [] && TimestampsIncrease(l) && forall i: nat | l.Has(i) :: l.At(i).index == i
  }

  /** At the tip, accounts last set by block `n` are due for renewal if and only if that block is old enough and there is a demand. */
  lemma DueIff(l: Ledger, config: BlockChainConfig, checkpoint: Checkpoint, n: nat, now: int)
    requires InOrder(l) && l.Has(n) && config.checkpoint.minAgeSeconds <= INT64_MAX
    ensures MaxBlockIdForRenewal(l, Some(config), checkpoint, l.Next(), now).Ok?
    ensures n < MaxBlockIdForRenewal(l, Some(config), checkpoint, l.Next(), now).value <==>
      OldEnough(l, config, n, now) && !NoDemand(l, config, now)
  {
    hide FindBlockByTimestamp;
    var cutoff := now - config.checkpoint.minAgeSeconds;
    FindsFirst(l, cutoff);
    var found := FindBlockByTimestamp(l, cutoff);
    if found.Some? {
      assert l.At(found.value).index == found.value;
      if found.value <= n {
        LaterStays(l, found.value, n, cutoff);
      }
    }
  }

  lemma LaterStays(l: Ledger, i: nat, j: nat, timestamp: int)
    requires TimestampsIncrease(l) && l.Has(i) && l.Has(j) && i <= j && l.At(i).timestamp >= timestamp
    ensures l.At(j).timestamp >= timestamp
  {
  }

  // ----- when the checkpoints move -----

  /** The pair of checkpoints moves on to this block if and only if there is a configuration, the block lies behind the current checkpoint
      by the blocks and the epoch that it asks for, and the current checkpoint's block is as old as it asks. */
  lemma RotationIff(l: Ledger, config: Option<BlockChainConfig>, checkpoint: Checkpoint, index: nat, now: int)
    requires l.Has(checkpoint.currentId)
    requires config.Some? ==> checkpoint.currentId + config.value.checkpoint.minBlocks + config.value.slotsPerEpoch < TWO_64
    ensures var moved := Rotate(l, config, checkpoint, index, now);
      && (moved != checkpoint <==>
            && config.Some? && index > checkpoint.currentId
            && l.Next() >= checkpoint.currentId + config.value.checkpoint.minBlocks + config.value.slotsPerEpoch
            && (config.value.checkpoint.minAgeSeconds == 0 ||
                now - l.At(checkpoint.currentId).timestamp >= config.value.checkpoint.minAgeSeconds))
      && (moved != checkpoint ==> moved == Checkpoint(checkpoint.currentId, index))
  {
  }

  /** A block is validated strictly unless the pair of checkpoints is a single block other than block 0, or the block lies before the
      current checkpoint. */
  lemma StrictIff(checkpoint: Checkpoint, index: nat)
    ensures ShouldUseStrictMode(checkpoint, index) <==>
      checkpoint.currentId == 0 || (checkpoint.lastId != checkpoint.currentId && checkpoint.currentId <= index)
  {
  }

  // ----- stakes -----

  /** Stakes are the positive balances of native tokens. They are taken anew whenever the epoch is not the one they were taken in. */
  lemma StakesIff(w: World, epoch: nat)
    requires forall id | id in w.accounts :: BalanceOf(w.accounts, id, ID_GENESIS) <= INT64_MAX
    ensures var after := RefreshStakes(w, epoch);
      && after.accounts == w.accounts && after.config == w.config && after.consensus.schedule == w.consensus.schedule
      && after.consensus.lastUpdateEpoch == Some(epoch)
      && (w.consensus.lastUpdateEpoch == Some(epoch) ==> after.consensus.stakes == w.consensus.stakes)
      && (w.consensus.lastUpdateEpoch != Some(epoch) ==>
            && (forall id :: id in after.consensus.stakes <==> BalanceOf(w.accounts, id, ID_GENESIS) > 0)
            && (forall id | id in after.consensus.stakes :: after.consensus.stakes[id] == BalanceOf(w.accounts, id, ID_GENESIS)))
  {
  }

  // ----- records on time -----

  /** A keyed record passes the idempotency rules if and only if its window is in order, no longer than the configuration allows, contains the
      slot, and no block of the window before the slot holds the key. Without a key, and on the loose path, it always does. */
  lemma OnTimeIff(cx: Context, wallet: Id, w: Window, slot: nat, strict: bool)
    requires Orderly(cx.ledger, cx.schedule) && w.tsMin <= INT64_MAX
    ensures Idempotency(cx, wallet, w, slot, strict).Done? <==>
      (strict && w.idempotentId != 0 ==>
        && w.tsMin <= w.tsMax && cx.config.Some? && w.tsMax - w.tsMin <= cx.config.value.maxValidationTimespanSeconds
        && Ouroboros.SlotFromTimestamp(cx.schedule, w.tsMin) <= slot <= Ouroboros.SlotFromTimestamp(cx.schedule, w.tsMax)
        && forall i: nat | cx.ledger.Has(i) && Ouroboros.SlotFromTimestamp(cx.schedule, w.tsMin) <= cx.ledger.At(i).slot < slot ::
             !HasKey(cx.codec, cx.ledger.At(i).records, (wallet, w.idempotentId)))
  {
    hide CheckIdempotency, HasKey;
    if strict && w.idempotentId != 0 {
      var first := Ouroboros.SlotFromTimestamp(cx.schedule, w.tsMin);
      Ouroboros.SlotOfTimestampInRange(cx.schedule, w.tsMin);
      if first < slot {
        CheckMeaning(cx.codec, cx.ledger, cx.schedule, (wallet, w.idempotentId), first, slot - 1);
      }
    }
  }

  /** Which account and window a record is watched by: the payer's, the updated account's or the genesis account's. Renewals and endings are
      not watched. */
  lemma WatchedBy(tx: TypedTx)
    ensures tx.TxDefault? || tx.TxNewUser? ==> IdempotencyOf(tx) == (tx.fromWalletId, tx.window)
    ensures tx.TxUserUpdate? ==> IdempotencyOf(tx) == (tx.walletId, tx.window)
    ensures tx.TxConfig? ==> IdempotencyOf(tx) == (ID_GENESIS, tx.window)
    ensures tx.TxRenewal? || tx.TxEndUser? || tx.TxGenesis? ==> IdempotencyOf(tx).1.idempotentId == 0
    ensures TxKey(tx) == if IdempotencyOf(tx).1.idempotentId == 0 then None else Some((IdempotencyOf(tx).0, IdempotencyOf(tx).1.idempotentId))
  {
  }

  // ----- blocks -----

  /** The block continues the last one: number, hash link and count of transactions. */
  predicate Continues(l: Ledger, block: Block) {
    l.nodes != [] &&
    var last := l.nodes[|l.nodes| - 1];
    && block.index == last.block.index + 1 && block.previousHash == last.hash && block.txIndex == last.block.txIndex + |last.block.records|
  }

  /** Below the tip as at it, a block must follow the one before its number; only the first of the ledger follows none. */
  lemma SequenceIff(l: Ledger, block: Block)
    ensures CheckSequence(l, block).Done? <==>
      && l.start <= block.index <= l.Next()
      && (block.index > l.start ==>
            var before := l.nodes[block.index - 1 - l.start];
            && block.index == before.block.index + 1 && block.previousHash == before.hash
            && block.txIndex == before.block.txIndex + |before.block.records|)
  {
  }

  /** The account that a renewal or an ending is about. */
  predicate About(codec: Codec, rec: Record, id: Id) {
    codec.decode(rec).Some? && (codec.decode(rec).value.TxRenewal? || codec.decode(rec).value.TxEndUser?) && codec.decode(rec).value.walletId == id
  }

  /** Every account that is due is renewed or ended, no record is about an unknown account or one set behind the deadline, and none that cannot
      be read is labelled as such a record. */
  ghost predicate RenewsAll(codec: Codec, b: Accounts, deadline: nat, records: seq<Record>) {
    && (forall id | id in b && b[id].blockId < deadline :: exists i :: 0 <= i < |records| && About(codec, records[i], id))
    && (forall i, id | 0 <= i < |records| && About(codec, records[i], id) :: id in b && (deadline > 0 ==> b[id].blockId <= deadline))
    && (forall i | 0 <= i < |records| && codec.decode(records[i]).None? :: records[i].recordType != 5 && records[i].recordType != 6)
  }

  lemma RenewsAllIff(codec: Codec, b: Accounts, deadline: nat, records: seq<Record>)
    ensures RenewalsComplete(codec, b, deadline, records) <==> RenewsAll(codec, b, deadline, records)
  {
    hide About;
    AboutIs(codec);
    assert deadline == 0 ==> IdsBefore(b, deadline) == {};
    if RenewalsComplete(codec, b, deadline, records) {
      forall id | id in b && b[id].blockId < deadline
        ensures exists i :: 0 <= i < |records| && About(codec, records[i], id)
      {
        assert id in IdsBefore(b, deadline) && id in RenewedIn(codec, records);
      }
      assert forall i | 0 <= i < |records| :: RenewalAllowed(codec, b, deadline, records[i]);
    }
    if RenewsAll(codec, b, deadline, records) {
      forall i | 0 <= i < |records|
        ensures RenewalAllowed(codec, b, deadline, records[i])
      {
        assert RenewalIdOf(codec, records[i]).Some? ==> About(codec, records[i], RenewalIdOf(codec, records[i]).value);
      }
      forall id | id in IdsBefore(b, deadline)
        ensures id in RenewedIn(codec, records)
      {
        var i :| 0 <= i < |records| && About(codec, records[i], id);
        assert RenewalIdOf(codec, records[i]) == Some(id);
      }
    }
  }

  lemma AboutIs(codec: Codec)
    ensures forall rec, id: Id :: About(codec, rec, id) <==> RenewalIdOf(codec, rec) == Some(id)
  {
  }

  /** No two records of the block are watched under the same account and client id. */
  predicate KeysApart(codec: Codec, records: seq<Record>) {
    forall i, j | 0 <= i < j < |records| && KeyOf(codec, records[i]).Some? :: KeyOf(codec, records[i]) != KeyOf(codec, records[j])
  }

  /** The chain accepts a block at its tip if and only if: its hash is its own; it continues the last block; it is by the leader whom the stakes
      choose for its slot and epoch, there being stakes; its time lies within its slot; it renews all accounts that are due and those only; it
      keeps the limit or holds records labelled as renewals alone; no two of its records share a key; and its records are accepted one
      after another. */
  lemma TipAcceptedIff(codec: Codec, st: ChainState, node: ChainNode, now: int)
    requires BaseInvariant(st) && AtTip(st, node)
    ensures MaxBlockIdForRenewal(st.ledger, st.world.config, st.checkpoint, st.ledger.Next(), now).Ok?
    ensures var block, slots := node.block, st.world.consensus.schedule; var limit := st.world.config.value.maxTransactionsPerBlock;
      var deadline := MaxBlockIdForRenewal(st.ledger, st.world.config, st.checkpoint, st.ledger.Next(), now).value;
      AddBlock(codec, st, node, now).1.Done? <==>
        && codec.hashOf(block) == node.hash && Continues(st.ledger, block)
        && st.world.consensus.stakes != map[]
        && block.slotLeader == codec.slotLeader(st.world.consensus.stakes, block.slot, block.slot / slots.slotsPerEpoch)
        && slots.genesisTime + block.slot * slots.slotDuration <= block.timestamp < slots.genesisTime + (block.slot + 1) * slots.slotDuration
        && RenewsAll(codec, st.world.accounts, deadline, block.records)
        && (0 < limit < |block.records| ==> forall i | 0 <= i < |block.records| :: block.records[i].recordType == 5)
        && KeysApart(codec, block.records)
        && ProcessRecords(codec, st.ledger, st.world, block, 0, true).1.Done?
  {
    hide ProcessRecords, RenewalsComplete, RenewsAll, KeyOf, Orderly, Linked, MaxBlockIdForRenewal, Rotate, CheckSequence, Continues;
    AlwaysStrict(st, node);
    TipContinuesIff(st, node);
    TipTimedIff(st, node);
    DeadlineKnown(st, now);
    RenewsAllIff(codec, st.world.accounts,
      MaxBlockIdForRenewal(st.ledger, st.world.config, st.checkpoint, st.ledger.Next(), now).value, node.block.records);
  }

  lemma DeadlineKnown(st: ChainState, now: int)
    requires st.world.config.Some?
    ensures MaxBlockIdForRenewal(st.ledger, st.world.config, st.checkpoint, st.ledger.Next(), now).Ok?
  {
  }

  lemma TipContinuesIff(st: ChainState, node: ChainNode)
    requires BaseInvariant(st) && AtTip(st, node)
    ensures node.block.index != 0 && (CheckSequence(st.ledger, node.block).Done? <==> Continues(st.ledger, node.block))
  {
    assert st.ledger.At(st.ledger.Next() - 1).index == st.ledger.Next() - 1;
  }

  lemma TipTimedIff(st: ChainState, node: ChainNode)
    requires BaseInvariant(st) && AtTip(st, node)
    ensures var block, slots := node.block, st.world.consensus.schedule;
      && slots.IsSet()
      && (Ouroboros.ValidBlockTiming(slots, block.timestamp, block.slot) <==>
            slots.genesisTime + block.slot * slots.slotDuration <= block.timestamp < slots.genesisTime + (block.slot + 1) * slots.slotDuration)
  {
    hide Linked;
    Ouroboros.SlotStartExact(st.world.consensus.schedule, node.block.slot);
    assert (node.block.slot + 1) * st.world.consensus.schedule.slotDuration
        == node.block.slot * st.world.consensus.schedule.slotDuration + st.world.consensus.schedule.slotDuration;
  }

  /** An accepted block leaves the ledger one block longer and the checkpoints moved or not; the records have done the rest. */
  lemma TipLeaves(codec: Codec, st: ChainState, node: ChainNode, now: int)
    requires BaseInvariant(st) && AtTip(st, node) && AddBlock(codec, st, node, now).1.Done?
    ensures var next := AddBlock(codec, st, node, now).0;
      && next.ledger.start == st.ledger.start && next.ledger.nodes == st.ledger.nodes + [node]
      && next.world == ProcessRecords(codec, st.ledger, st.world, node.block, 0, true).0
      && next.checkpoint == Rotate(st.ledger, next.world.config, st.checkpoint, st.ledger.Next(), now)
  {
    hide ProcessRecords, AddBlock, Rotate, BaseInvariant;
    OfferUnfolds(codec, st, node, now);
  }

  /** A replay goes past a block if and only if the block bears the number it is stored under, the slot schedule is set, and the block is
      accepted behind the stakes of its epoch; only block 0 needs no schedule. */
  lemma ReplayPassesIff(codec: Codec, st: ChainState, id: nat, strict: bool, now: int)
    requires st.ledger.Has(id)
    ensures Replay(codec, st, id, strict, now).1.Done? <==>
      && st.ledger.At(id).index == id
      && (id > 0 ==> st.world.consensus.schedule.slotDuration > 0 && st.world.consensus.schedule.slotsPerEpoch > 0)
      && var node := st.ledger.nodes[id - st.ledger.start];
         var seen := if id == 0 then st else st.(world := RefreshStakes(st.world, node.block.slot / st.world.consensus.schedule.slotsPerEpoch));
         var (next, s) := ProcessBlock(codec, seen, node, strict, now);
         s.Done? && Replay(codec, next, id + 1, strict, now).1.Done?
  {
    hide ProcessBlock, RefreshStakes;
  }

  /** A load forgets the accounts and both checkpoints, and replays from the block given, strictly only from block 0. */
  lemma LoadIs(codec: Codec, st: ChainState, start: nat, now: int)
    ensures LoadFromLedger(codec, st, start, now)
         == Replay(codec, ChainState(st.ledger, World(map[], st.world.config, st.world.consensus), Checkpoint(start, start)), start, start == 0, now)
  {
  }

  // ----- the genesis block -----

  /** A record by which the genesis account opens an account and pays exactly the fee for what it carries. */
  predicate Opens(codec: Codec, config: BlockChainConfig, rec: Record, id: Id) {
    && codec.decode(rec).Some? && codec.decode(rec).value.TxNewUser? && rec.recordType == 2
    && var tx := codec.decode(rec).value;
       tx.fromWalletId == ID_GENESIS && tx.toWalletId == id && tx.fee <= INT64_MAX && MinFeeForTx(codec, config, tx) == Ok(tx.fee)
  }

  /** A genesis block has number, slot, leader, nonce and transaction count zero, "0" for the hash before it, and four records: the genesis
      record, whose payload can be read, and the openings of fee, reserve and recycle account. Fee and recycle account are opened empty and
      with metadata, and what the reserve gets and the three fees make up the initial supply, modulo 2^64. */
  lemma GenesisIff(codec: Codec, node: ChainNode)
    ensures var block := node.block;
      ValidateGenesisBlock(codec, node).Done? <==>
        && block.index == 0 && block.slot == 0 && block.slotLeader == 0 && block.nonce == 0 && block.txIndex == 0 && block.previousHash == [48]
        && |block.records| == 4 && codec.hashOf(block) == node.hash
        && block.records[0].recordType == 1 && codec.decode(block.records[0]).Some? && codec.decode(block.records[0]).value.TxGenesis?
        && codec.genesisMetaOf(codec.decode(block.records[0]).value.meta).Some?
        && var config := codec.genesisMetaOf(codec.decode(block.records[0]).value.meta).value.config;
           && Opens(codec, config, block.records[1], 1) && Opens(codec, config, block.records[2], 2) && Opens(codec, config, block.records[3], 3)
           && var fee, reserve, recycle := codec.decode(block.records[1]).value, codec.decode(block.records[2]).value, codec.decode(block.records[3]).value;
              && fee.amount == 0 && fee.meta != [] && recycle.amount == 0 && recycle.meta != []
              && (reserve.amount + fee.fee + reserve.fee + recycle.fee - 0x4000_0000) % 0x1_0000_0000_0000_0000 == 0
  {
    hide MinFeeForTx;
    forall x: int
      ensures Wrap(x) == INITIAL_TOKEN_SUPPLY <==> (x - 0x4000_0000) % 0x1_0000_0000_0000_0000 == 0
    {
      SupplyModulo(x);
    }
  }

  lemma SupplyModulo(x: int)
    ensures Wrap(x) == 0x4000_0000 <==> (x - 0x4000_0000) % 0x1_0000_0000_0000_0000 == 0
  {
  }
}
