/** The checkpoint pair is safe to start from: no account was last set before the last checkpoint. */
module CheckpointSafety {
  import opened Numbers
  import opened Outcomes
  import opened ChainTypes
  import opened Bank
  import opened LedgerView
  import opened TxFees
  import opened TxHandlers
  import opened TxIdempotency
  import opened BlockValidation
  import opened ChainSpec
  import opened Runs
  import Ouroboros

  /** Every account was either stamped with this block or is still stamped as before. */
  ghost predicate StampedOrKept(before: Accounts, after: Accounts, blockId: nat) {
    forall id | id in after ::
      after[id].blockId == blockId || (id in before && after[id].blockId == before[id].blockId)
  }

  /** The account is gone or was last set by this block. */
  predicate Settled(b: Accounts, id: Id, blockId: nat) {
    id in b ==> b[id].blockId == blockId
  }

  lemma TransferStamps(b: Accounts, from: Id, to: Id, token: Id, amount: u64, fee: u64, blockId: nat)
    ensures StampedOrKept(b, Transfer(b, from, to, token, amount, fee).0, blockId)
    ensures Transfer(b, from, to, token, amount, fee).0.Keys == b.Keys
  {
    hide VerifySpendingPower;
    hide BalanceOf;
    if from in b && to in b {
      assert StampedOrKept(b, MoveAmount(b, from, to, token, amount), blockId);
      var charged := ChargeFee(b, from, to, token, amount, fee);
      assert StampedOrKept(b, charged, blockId);
    }
  }

  lemma ReplaceStamps(b: Accounts, id: Id, wallet: Wallet, blockId: nat, fee: u64)
    ensures StampedOrKept(b, ReplaceAndPay(b, id, wallet, blockId, fee).0, blockId)
    ensures Settled(ReplaceAndPay(b, id, wallet, blockId, fee).0, id, blockId)
  {
  }

  lemma HandleStamps(cx: Context, tx: TypedTx, b: Accounts, existing: Accounts, blockId: nat)
    requires !tx.TxGenesis?
    ensures StampedOrKept(b, Handle(cx, tx, b, existing, blockId, true).0, blockId)
  {
    hide CheckFee;
    hide VerifyBalance;
    hide Transfer;
    hide ReplaceAndPay;
    hide MinFeeForAccount;
    hide Absorb;
    match tx
    case TxDefault(token, from, to, amount, fee, _, _) =>
      TransferStamps(b, from, to, token, amount, fee, blockId);
    case TxNewUser(from, to, amount, fee, meta, _) =>
      if CheckNewUser(cx, tx, b, existing, true).Done? {
        var wallet := cx.codec.userAccountOf(meta).value.wallet.(balances := map[]);
        var added := b[to := Account.Account(to, wallet, blockId)];
        TransferStamps(added, from, to, ID_GENESIS, amount, fee, blockId);
      }
    case TxUserUpdate(id, fee, meta, _) =>
      if cx.codec.userAccountOf(meta).Some? {
        ReplaceStamps(b, id, cx.codec.userAccountOf(meta).value.wallet, blockId, fee);
      }
    case TxRenewal(id, fee, meta) =>
      RenewalStamps(cx, tx, b, existing, blockId);
    case _ =>
  }

  lemma RenewalStamps(cx: Context, tx: TypedTx, b: Accounts, existing: Accounts, blockId: nat)
    requires tx.TxRenewal?
    ensures StampedOrKept(b, Handle(cx, tx, b, existing, blockId, true).0, blockId)
    ensures Handle(cx, tx, b, existing, blockId, true).1.Done? ==>
      Settled(Handle(cx, tx, b, existing, blockId, true).0, tx.walletId, blockId)
  {
    if tx.walletId == ID_GENESIS {
      if cx.codec.genesisMetaOf(tx.meta).Some? {
        ReplaceStamps(b, ID_GENESIS, cx.codec.genesisMetaOf(tx.meta).value.genesis.wallet, blockId, tx.fee);
      }
    } else if cx.codec.userAccountOf(tx.meta).Some? {
      ReplaceStamps(b, tx.walletId, cx.codec.userAccountOf(tx.meta).value.wallet, blockId, tx.fee);
    }
  }

  /** An accepted renewal or end-user record settles its account. */
  lemma RenewalSettles(cx: Context, tx: TypedTx, b: Accounts, existing: Accounts, blockId: nat)
    requires tx.TxRenewal? || tx.TxEndUser?
    requires Handle(cx, tx, b, existing, blockId, true).1.Done?
    ensures Settled(Handle(cx, tx, b, existing, blockId, true).0, tx.walletId, blockId)
  {
    if tx.TxRenewal? {
      RenewalStamps(cx, tx, b, existing, blockId);
    }
  }

  lemma RecordStamps(codec: Codec, l: Ledger, w: World, rec: Record, block: Block)
    ensures var (next, s) := ProcessRecord(codec, l, w, rec, block, true);
      && StampedOrKept(w.accounts, next.accounts, block.index)
      && (s.Done? && RenewalIdOf(codec, rec).Some? ==> Settled(next.accounts, RenewalIdOf(codec, rec).value, block.index))
  {
    var decoded := codec.decode(rec);
    if decoded.Some? && !decoded.value.TxGenesis? {
      var cx := ContextOf(codec, l, w);
      HandleStamps(cx, decoded.value, w.accounts, map[], block.index);
      if (decoded.value.TxRenewal? || decoded.value.TxEndUser?) &&
         Handle(cx, decoded.value, w.accounts, map[], block.index, true).1.Done? {
        RenewalSettles(cx, decoded.value, w.accounts, map[], block.index);
      }
    }
  }

  lemma StampsCompose(before: Accounts, mid: Accounts, after: Accounts, blockId: nat)
    requires StampedOrKept(before, mid, blockId) && StampedOrKept(mid, after, blockId)
    ensures StampedOrKept(before, after, blockId)
    ensures forall id | Settled(mid, id, blockId) :: Settled(after, id, blockId)
  {
  }

  /** The accounts that the records from position `i` on renew or end. */
  ghost predicate SettledFrom(codec: Codec, records: seq<Record>, i: nat, b: Accounts, blockId: nat) {
    forall j | i <= j < |records| && RenewalIdOf(codec, records[j]).Some? ::
      Settled(b, RenewalIdOf(codec, records[j]).value, blockId)
  }

  lemma {:induction false} RecordsStamp(codec: Codec, l: Ledger, w: World, block: Block, i: nat)
    requires i <= |block.records| && ProcessRecords(codec, l, w, block, i, true).1.Done?
    ensures StampedOrKept(w.accounts, ProcessRecords(codec, l, w, block, i, true).0.accounts, block.index)
    ensures SettledFrom(codec, block.records, i, ProcessRecords(codec, l, w, block, i, true).0.accounts, block.index)
    decreases |block.records| - i
  {
    if i < |block.records| {
      var (mid, s) := ProcessRecord(codec, l, w, block.records[i], block, true);
      RecordStamps(codec, l, w, block.records[i], block);
      RecordsStamp(codec, l, mid, block, i + 1);
      StampsCompose(w.accounts, mid.accounts, ProcessRecords(codec, l, mid, block, i + 1, true).0.accounts, block.index);
    }
  }

  /** A block that renews everything past a deadline leaves every account set at or after it. */
  lemma RenewedInTime(codec: Codec, st: ChainState, node: ChainNode, deadline: nat)
    requires forall id | id in st.world.accounts :: st.world.accounts[id].blockId <= node.block.index
    requires RenewalsComplete(codec, st.world.accounts, deadline, node.block.records) && deadline <= node.block.index
    requires ProcessRecords(codec, st.ledger, st.world, node.block, 0, true).1.Done?
    ensures var after := ProcessRecords(codec, st.ledger, st.world, node.block, 0, true).0.accounts;
      forall id | id in after :: deadline <= after[id].blockId <= node.block.index
  {
    RecordsStamp(codec, st.ledger, st.world, node.block, 0);
    var b := st.world.accounts;
    var after := ProcessRecords(codec, st.ledger, st.world, node.block, 0, true).0.accounts;
    forall id | id in after
      ensures deadline <= after[id].blockId <= node.block.index
    {
      if deadline > 0 && id in b && b[id].blockId < deadline {
        assert id in RenewedIn(codec, node.block.records);
        var j :| 0 <= j < |node.block.records| && RenewalIdOf(codec, node.block.records[j]) == Some(id);
        assert Settled(after, id, node.block.index);
      }
    }
  }

  /** After an accepted block every account was last set at or after the block's renewal deadline. */
  lemma DeadlineMet(codec: Codec, st: ChainState, node: ChainNode, now: int)
    requires BaseInvariant(st) && AtTip(st, node) && AddBlock(codec, st, node, now).1.Done?
    requires forall id | id in st.world.accounts :: st.world.accounts[id].blockId <= st.ledger.Next()
    ensures MaxBlockIdForRenewal(st.ledger, st.world.config, st.checkpoint, node.block.index, now).Ok?
    ensures var deadline := MaxBlockIdForRenewal(st.ledger, st.world.config, st.checkpoint, node.block.index, now).value;
      var after := AddBlock(codec, st, node, now).0.world.accounts;
      forall id | id in after :: deadline <= after[id].blockId <= node.block.index
  {
    hide RenewalsComplete, AddBlock;
    OfferUnfolds(codec, st, node, now);
    RenewedInTime(codec, st, node, MaxBlockIdForRenewal(st.ledger, st.world.config, st.checkpoint, node.block.index, now).value);
  }

  /** By block count alone, a renewal deadline exists exactly when a checkpoint spans two blocks or more and
      that many blocks exist: with `minBlocks` below two no account is ever asked to renew. */
  lemma DeadlineDemandedIff(l: Ledger, config: BlockChainConfig, checkpoint: Checkpoint, atBlockId: nat, now: int)
    requires config.checkpoint.minAgeSeconds == 0
    ensures MaxBlockIdForRenewal(l, Some(config), checkpoint, atBlockId, now).Ok?
    ensures MaxBlockIdForRenewal(l, Some(config), checkpoint, atBlockId, now).value > 0 <==>
      2 <= config.checkpoint.minBlocks <= atBlockId
  {
  }

  /** The settings are usable (a checkpoint spans at least two blocks, nothing wraps) and the block does not
      lower them. */
  predicate SettingsKept(before: Option<BlockChainConfig>, after: Option<BlockChainConfig>, next: nat) {
    && before.Some? && after.Some?
    && 2 <= before.value.checkpoint.minBlocks <= after.value.checkpoint.minBlocks
    && before.value.checkpoint.minAgeSeconds <= after.value.checkpoint.minAgeSeconds <= INT64_MAX
    && next + after.value.checkpoint.minBlocks + after.value.slotsPerEpoch < TWO_64
  }

  /** Whenever the checkpoint rotates, the renewal deadline has already passed the block that becomes the
      last checkpoint. */
  lemma RotationFollowsDeadline(st: ChainState, after: Option<BlockChainConfig>, index: nat, now: int)
    requires BaseInvariant(st) && index == st.ledger.Next()
    requires SettingsKept(st.world.config, after, st.ledger.Next())
    requires Rotate(st.ledger, after, st.checkpoint, index, now) != st.checkpoint
    ensures MaxBlockIdForRenewal(st.ledger, st.world.config, st.checkpoint, index, now).Ok?
    ensures MaxBlockIdForRenewal(st.ledger, st.world.config, st.checkpoint, index, now).value >= st.checkpoint.currentId
  {
    var l := st.ledger;
    var current := st.checkpoint.currentId;
    var minAge := st.world.config.value.checkpoint.minAgeSeconds;
    assert l.Has(current);
    OrderlyTimestamps(l, st.world.consensus.schedule);
    if minAge > 0 {
      var cutoff := now - minAge;
      assert l.At(current).timestamp <= cutoff;
      FindsFirst(l, cutoff);
      var found := FindBlockByTimestamp(l, cutoff);
      if found.Some? {
        assert l.At(found.value).index == found.value;
        assert found.value >= current;
      }
    }
  }

  // ----- over whole runs -----

  ghost predicate CheckpointInvariant(st: ChainState) {
    && BaseInvariant(st)
    && forall id | id in st.world.accounts ::
         st.checkpoint.lastId <= st.world.accounts[id].blockId < st.ledger.Next()
  }

  /** A step that makes another block the last checkpoint has usable settings and does not lower them. Nothing is asked
      of any other step. */
  predicate RotatesSafely(st: ChainState, next: ChainState) {
    next.checkpoint.lastId != st.checkpoint.lastId ==> SettingsKept(st.world.config, next.world.config, st.ledger.Next())
  }

  predicate RotatesSafelyAlong(codec: Codec, st: ChainState, events: seq<Event>)
    decreases |events|
  {
    events == [] ||
    var next := Step(codec, st, events[0]).0;
    RotatesSafely(st, next) && RotatesSafelyAlong(codec, next, events[1..])
  }

  lemma OfferKeepsCheckpoint(codec: Codec, st: ChainState, node: ChainNode, now: int)
    requires CheckpointInvariant(st) && AtTip(st, node) && AddBlock(codec, st, node, now).1.Done?
    requires RotatesSafely(st, AddBlock(codec, st, node, now).0)
    ensures CheckpointInvariant(AddBlock(codec, st, node, now).0)
  {
    OfferKeepsBase(codec, st, node, now);
    DeadlineMet(codec, st, node, now);
    OfferUnfolds(codec, st, node, now);
    RecordsStamp(codec, st.ledger, st.world, node.block, 0);
    var after := ProcessRecords(codec, st.ledger, st.world, node.block, 0, true).0;
    if Rotate(st.ledger, after.config, st.checkpoint, node.block.index, now).lastId != st.checkpoint.lastId {
      RotationFollowsDeadline(st, after.config, node.block.index, now);
    }
  }

  lemma BootEstablishesCheckpoint(codec: Codec, st: ChainState, schedule: Ouroboros.Schedule, genesis: ChainNode, now: int)
    requires Booted(codec, st, schedule, genesis, now)
    ensures CheckpointInvariant(st)
  {
    BootEstablishesBase(codec, st, schedule, genesis, now);
    var start := Initial(schedule);
    RecordsStamp(codec, start.ledger, start.world, genesis.block, 0);
  }

  /** In every state of every run no account was last set before the last checkpoint, and the checkpoints
      are blocks of the ledger in order. */
  lemma {:induction false} CheckpointHolds(codec: Codec, st: ChainState, events: seq<Event>)
    requires CheckpointInvariant(st) && Accepted(codec, st, events) && RotatesSafelyAlong(codec, st, events)
    ensures CheckpointInvariant(Run(codec, st, events).0)
    decreases |events|
  {
    if events != [] {
      hide AddBlock, RotatesSafely;
      var next := Step(codec, st, events[0]).0;
      if events[0].Offer? {
        OfferKeepsCheckpoint(codec, st, events[0].node, events[0].now);
      }
      CheckpointHolds(codec, next, events[1..]);
    }
  }

}
