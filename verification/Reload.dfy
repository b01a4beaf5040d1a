/** Restarting a node from block 0 of its own ledger: every block is validated again, strictly, with the ledger already
    complete and the clock of the restart. */
module Reload {
  import opened Numbers
  import opened Outcomes
  import opened ChainTypes
  import opened Bank
  import opened LedgerView
  import opened TxFees
  import opened TxHandlers
  import opened TxIdempotency
  import opened BlockValidation
  import opened ChainSpec
  import opened Runs
  import opened AtMostOnce
  import opened LateJoiner
  import opened CheckpointSafety
  import opened CheckpointSync
  import Ouroboros

  // ----- the same record against a longer ledger -----

  /** The later blocks lie in this slot or after it. */
  predicate LaterFrom(shorter: Ledger, longer: Ledger, slot: nat)
    requires Extends(shorter, longer)
  {
    forall i | shorter.Next() <= i < longer.Next() :: longer.At(i).slot >= slot
  }

  /** Two nodes agree on accounts, configuration and slots; the stakes they know may differ. */
  predicate SameWorld(a: World, b: World) {
    a.accounts == b.accounts && a.config == b.config && a.consensus.schedule == b.consensus.schedule
  }

  lemma FeeReplays(codec: Codec, shorter: Ledger, longer: Ledger, config: BlockChainConfig, b: Accounts, id: Id)
    requires Extends(shorter, longer) && MinFeeForAccount(codec, shorter, config, b, id).Ok?
    ensures MinFeeForAccount(codec, longer, config, b, id) == MinFeeForAccount(codec, shorter, config, b, id)
  {
    hide GenesisMetaFromBlock, UserAccountFromBlock, MinFeeForSize;
  }

  lemma PrefixOrderly(shorter: Ledger, longer: Ledger, c: Ouroboros.Schedule)
    requires Extends(shorter, longer) && Orderly(longer, c)
    ensures Orderly(shorter, c)
  {
    forall i: nat | shorter.Has(i)
      ensures shorter.At(i) == longer.At(i)
    {
    }
  }

  /** Blocks in later slots cannot make a record a duplicate. */
  lemma RulesReplay(codec: Codec, shorter: Ledger, longer: Ledger, c: Ouroboros.Schedule, config: Option<BlockChainConfig>,
                    wallet: Id, w: Window, slot: nat)
    requires Extends(shorter, longer) && Orderly(longer, c) && LaterFrom(shorter, longer, slot) && w.tsMin <= INT64_MAX
    requires ValidateIdempotencyRules(codec, shorter, c, config, wallet, w, slot, true).Done?
    ensures ValidateIdempotencyRules(codec, longer, c, config, wallet, w, slot, true).Done?
  {
    hide CheckIdempotency, HasKey;
    PrefixOrderly(shorter, longer, c);
    var slotMin := Ouroboros.SlotFromTimestamp(c, w.tsMin);
    Ouroboros.SlotOfTimestampInRange(c, w.tsMin);
    if w.idempotentId != 0 && slotMin < slot {
      CheckMeaning(codec, shorter, c, (wallet, w.idempotentId), slotMin, slot - 1);
      CheckMeaning(codec, longer, c, (wallet, w.idempotentId), slotMin, slot - 1);
      forall i: nat | longer.Has(i) && slotMin <= longer.At(i).slot <= slot - 1
        ensures !HasKey(codec, longer.At(i).records, (wallet, w.idempotentId))
      {
        assert shorter.Has(i) && shorter.At(i) == longer.At(i);
      }
    }
  }

  lemma HandleReplays(cx: Context, longer: Ledger, tx: TypedTx, b: Accounts, blockId: nat)
    requires !tx.TxGenesis? && Extends(cx.ledger, longer) && Handle(cx, tx, b, map[], blockId, true).1.Done?
    ensures Handle(cx.(ledger := longer), tx, b, map[], blockId, true) == Handle(cx, tx, b, map[], blockId, true)
  {
    hide Transfer, VerifyBalance, VerifySpendingPower, ReplaceAndPay, MinFeeForTx, MinFeeForAccount, WriteOff, CheckWallet,
      CheckGenesisWallet, CheckConfigChange;
    if tx.TxEndUser? {
      FeeReplays(cx.codec, cx.ledger, longer, cx.config.value, b, tx.walletId);
    }
  }

  lemma RecordReplays(codec: Codec, shorter: Ledger, longer: Ledger, w: World, v: World, rec: Record, block: Block)
    requires WindowsAreInt64(codec) && SameWorld(w, v) && Extends(shorter, longer)
    requires Orderly(longer, w.consensus.schedule) || DecodesGenesis(codec, rec)
    requires LaterFrom(shorter, longer, block.slot)
    requires ProcessRecord(codec, shorter, w, rec, block, true).1.Done?
    ensures ProcessRecord(codec, longer, v, rec, block, true).1.Done?
    ensures SameWorld(ProcessRecord(codec, shorter, w, rec, block, true).0, ProcessRecord(codec, longer, v, rec, block, true).0)
  {
    hide Handle, Orderly, ValidateIdempotencyRules, ValidateTxSignatures, LaterFrom;
    var tx := codec.decode(rec).value;
    if !tx.TxGenesis? {
      var (wallet, window) := IdempotencyOf(tx);
      RulesReplay(codec, shorter, longer, w.consensus.schedule, w.config, wallet, window, block.slot);
      HandleReplays(ContextOf(codec, shorter, w), longer, tx, w.accounts, block.index);
    }
  }

  predicate DecodesGenesis(codec: Codec, rec: Record) {
    codec.decode(rec).Some? && codec.decode(rec).value.TxGenesis?
  }

  lemma {:induction false} RecordsReplay(codec: Codec, shorter: Ledger, longer: Ledger, w: World, v: World, block: Block, i: nat)
    requires WindowsAreInt64(codec) && SameWorld(w, v) && Extends(shorter, longer) && i <= |block.records|
    requires Orderly(longer, w.consensus.schedule) && LaterFrom(shorter, longer, block.slot)
    requires block.index != 0 || forall j | i <= j < |block.records| ::
      codec.decode(block.records[j]).Some? && !codec.decode(block.records[j]).value.TxGenesis?
    requires ProcessRecords(codec, shorter, w, block, i, true).1.Done?
    ensures ProcessRecords(codec, longer, v, block, i, true).1.Done?
    ensures SameWorld(ProcessRecords(codec, shorter, w, block, i, true).0, ProcessRecords(codec, longer, v, block, i, true).0)
    decreases |block.records| - i
  {
    hide ProcessRecord, Orderly, LaterFrom, WindowsAreInt64;
    if i < |block.records| {
      RecordReplays(codec, shorter, longer, w, v, block.records[i], block);
      RecordPassesRules(codec, shorter, w, block.records[i], block);
      var next := ProcessRecord(codec, shorter, w, block.records[i], block, true).0;
      RecordsReplay(codec, shorter, longer, next, ProcessRecord(codec, longer, v, block.records[i], block, true).0, block, i + 1);
    }
  }

  // ----- one block -----

  /** What the restart asks of a block anew: that its leader is the one for the stakes now known, and that it held the renewals
      now due by the clock of the restart and the complete ledger. */
  predicate Demands(codec: Codec, st: ChainState, block: Block, now: int)
    requires st.world.consensus.schedule.IsSet()
  {
    && ValidLeader(codec, st.world.consensus, block)
    && var deadline := MaxBlockIdForRenewal(st.ledger, st.world.config, st.checkpoint, block.index, now);
       deadline.Ok? && RenewalsComplete(codec, st.world.accounts, deadline.value, block.records)
  }

  /** The ledger of a run, seen from a block of it. */
  ghost predicate Complete(l: Ledger, longer: Ledger, c: Ouroboros.Schedule, node: ChainNode) {
    Extends(Appended(l, node), longer) && Orderly(longer, c)
  }

  lemma CompleteKnows(l: Ledger, longer: Ledger, c: Ouroboros.Schedule, node: ChainNode)
    requires Complete(l, longer, c, node)
    ensures Extends(l, longer) && LaterFrom(l, longer, node.block.slot)
    ensures longer.Has(l.Next()) && longer.nodes[l.Next() - l.start] == node
    ensures forall i: nat | l.Has(i) :: longer.nodes[i - l.start] == l.nodes[i - l.start]
  {
    var extended := Appended(l, node);
    assert extended.nodes[|l.nodes|] == longer.nodes[|l.nodes|] == node;
    assert longer.At(l.Next()) == node.block;
    forall i: nat | l.Has(i)
      ensures longer.nodes[i - l.start] == l.nodes[i - l.start]
    {
      assert extended.nodes[i - l.start] == l.nodes[i - l.start];
    }
  }

  /** A block that the run accepted is accepted again if and only if it meets the new demands, and then does to accounts and
      configuration what it did. */
  lemma BlockReplaysIff(codec: Codec, st: ChainState, node: ChainNode, appliedAt: int, joiner: ChainState, now: int)
    requires WindowsAreInt64(codec) && BaseInvariant(st) && AtTip(st, node) && AddBlock(codec, st, node, appliedAt).1.Done?
    requires Complete(st.ledger, joiner.ledger, st.world.consensus.schedule, node) && SameWorld(st.world, joiner.world)
    ensures joiner.world.consensus.schedule.IsSet()
    ensures ProcessBlock(codec, joiner, node, true, now).1.Done? <==> Demands(codec, joiner, node.block, now)
    ensures ProcessBlock(codec, joiner, node, true, now).1.Done? ==>
      SameWorld(AddBlock(codec, st, node, appliedAt).0.world, ProcessBlock(codec, joiner, node, true, now).0.world)
  {
    hide AddBlock, ProcessRecords, ValidLeader, MaxBlockIdForRenewal, RenewalsComplete, KeysDistinct, WithinLimit, Complete, Linked,
      CheckSequence, Ouroboros.ValidBlockTiming, WindowsAreInt64, LaterFrom;
    OfferUnfolds(codec, st, node, appliedAt);
    IndexPositive(st, node);
    CompleteKnows(st.ledger, joiner.ledger, st.world.consensus.schedule, node);
    CompleteOrderly(st.ledger, joiner.ledger, st.world.consensus.schedule, node);
    RecordsReplay(codec, st.ledger, joiner.ledger, st.world, joiner.world, node.block, 0);
    SequenceReplays(st, node, joiner.ledger);
    HashHeld(codec, st, node, appliedAt);
  }

  lemma CompleteOrderly(l: Ledger, longer: Ledger, c: Ouroboros.Schedule, node: ChainNode)
    requires Complete(l, longer, c, node)
    ensures Orderly(longer, c) && c.IsSet()
  {
  }

  lemma SequenceReplays(st: ChainState, node: ChainNode, longer: Ledger)
    requires BaseInvariant(st) && AtTip(st, node) && CheckSequence(st.ledger, node.block).Done?
    requires Extends(st.ledger, longer) && longer.Has(st.ledger.Next())
    ensures CheckSequence(longer, node.block).Done?
  {
    var i := |st.ledger.nodes| - 1;
    assert longer.nodes[i] == st.ledger.nodes[i];
  }

  lemma HashHeld(codec: Codec, st: ChainState, node: ChainNode, now: int)
    requires BaseInvariant(st) && AtTip(st, node) && AddBlock(codec, st, node, now).1.Done?
    ensures codec.hashOf(node.block) == node.hash
  {
    hide ProcessRecords;
    IndexPositive(st, node);
  }

  // ----- the whole ledger -----

  /** What a replaying node knows of stakes and epochs at a block: the stakes are those of the accounts at the first block of
      the epoch. */
  function Seen(known: Ouroboros.Consensus, b: Accounts, slot: nat): (r: Ouroboros.Consensus)
    requires known.schedule.IsSet()
    ensures r.schedule == known.schedule
  {
    RefreshStakes(World(b, None, known), Ouroboros.EpochFromSlot(known.schedule, slot)).consensus
  }

  /** The accounts past the block's deadline, as the complete ledger and the clock of the restart set it, are renewed or ended
      in the block. */
  predicate RenewsAnew(codec: Codec, w: World, full: Ledger, block: Block, now: int) {
    var deadline := MaxBlockIdForRenewal(full, w.config, Checkpoint(0, 0), block.index, now);
    deadline.Ok? && RenewalsComplete(codec, w.accounts, deadline.value, block.records)
  }

  /** What a restart asks of the blocks of a run, in terms of the run: for each block, that its leader was the one for the
      stakes of the run's accounts at the first block of its epoch, and that it renewed what the complete ledger `full` and the
      clock of the restart demand of the run's accounts before it. `known` are the stakes of the epoch so far. */
  predicate RunDemands(codec: Codec, st: ChainState, events: seq<Event>, known: Ouroboros.Consensus, full: Ledger, now: int)
    requires known.schedule.IsSet()
    decreases |events|
  {
    events == [] ||
    var next := Step(codec, st, events[0]).0;
    match events[0]
    case Refresh(_) => RunDemands(codec, next, events[1..], known, full, now)
    case Offer(node, _) =>
      var seen := Seen(known, st.world.accounts, node.block.slot);
      && ValidLeader(codec, seen, node.block) && RenewsAnew(codec, st.world, full, node.block, now)
      && RunDemands(codec, next, events[1..], seen, full, now)
  }

  function Refreshed(st: ChainState, block: Block): (r: ChainState)
    requires st.world.consensus.schedule.IsSet()
    ensures r.ledger == st.ledger && r.world.consensus.schedule == st.world.consensus.schedule && SameWorld(st.world, r.world)
    ensures r.world.consensus == Seen(st.world.consensus, st.world.accounts, block.slot)
  {
    hide StakesOf;
    st.(world := RefreshStakes(st.world, Ouroboros.EpochFromSlot(st.world.consensus.schedule, block.slot)))
  }

  /** The new demands on a block, in terms of the run. */
  lemma DemandsOfRun(codec: Codec, st: ChainState, joiner: ChainState, block: Block, now: int)
    requires joiner.world.consensus.schedule.IsSet() && SameWorld(st.world, joiner.world) && st.world.config.Some?
    ensures Demands(codec, Refreshed(joiner, block), block, now) <==>
      && ValidLeader(codec, Seen(joiner.world.consensus, st.world.accounts, block.slot), block)
      && RenewsAnew(codec, st.world, joiner.ledger, block, now)
  {
    hide Seen, ValidLeader, RenewalsComplete;
  }

  /** Processing a block after the first one leaves stakes and epochs alone. */
  lemma ProcessingKeepsConsensus(codec: Codec, st: ChainState, node: ChainNode, now: int)
    requires node.block.index != 0
    ensures ProcessBlock(codec, st, node, true, now).0.world.consensus == st.world.consensus
  {
    hide ProcessRecord, ProcessRecords, ValidateBlock;
    RecordsKeepConsensus(codec, st.ledger, st.world, node.block, 0, true);
  }

  lemma ReplayUnfolds(codec: Codec, st: ChainState, id: nat, now: int)
    requires id > 0 && st.ledger.Has(id) && st.world.consensus.schedule.IsSet() && st.ledger.At(id).index == id
    ensures var node := st.ledger.nodes[id - st.ledger.start]; var r := ProcessBlock(codec, Refreshed(st, node.block), node, true, now);
      Replay(codec, st, id, true, now).1.Done? <==> r.1.Done? && Replay(codec, r.0, id + 1, true, now).1.Done?
    ensures var node := st.ledger.nodes[id - st.ledger.start]; var r := ProcessBlock(codec, Refreshed(st, node.block), node, true, now);
      r.1.Done? ==> Replay(codec, st, id, true, now) == Replay(codec, r.0, id + 1, true, now)
  {
    hide ProcessBlock, RefreshStakes;
  }

  /** The rest of a run replayed: it succeeds if and only if every block meets the new demands, and then gives the accounts
      and the configuration of the run. */
  lemma {:induction false} ReplayIff(codec: Codec, st: ChainState, events: seq<Event>, joiner: ChainState, now: int)
    requires WindowsAreInt64(codec) && BaseInvariant(st) && Accepted(codec, st, events) && SameWorld(st.world, joiner.world)
    requires joiner.ledger == Run(codec, st, events).0.ledger
    requires joiner.world.consensus.schedule.IsSet()
    ensures Replay(codec, joiner, st.ledger.Next(), true, now).1.Done? <==>
      RunDemands(codec, st, events, joiner.world.consensus, joiner.ledger, now)
    ensures Replay(codec, joiner, st.ledger.Next(), true, now).1.Done? ==>
      SameWorld(Run(codec, st, events).0.world, Replay(codec, joiner, st.ledger.Next(), true, now).0.world)
    decreases |events|
  {
    hide AddBlock, ProcessBlock, BaseInvariant, AtTip, Demands, RefreshStakes, WindowsAreInt64, Complete, Seen, RenewsAnew,
      ValidLeader;
    if events == [] {
      assert !joiner.ledger.Has(st.ledger.Next());
    } else if events[0].Refresh? {
      RefreshKeepsBase(st, events[0].epoch);
      ReplayIff(codec, Step(codec, st, events[0]).0, events[1..], joiner, now);
    } else {
      var node := events[0].node;
      var after := AddBlock(codec, st, node, events[0].now).0;
      OfferKeepsBase(codec, st, node, events[0].now);
      OfferAppends(codec, st, node, events[0].now);
      LedgerCompletes(codec, st, node, after, events[1..]);
      CompleteKnows(st.ledger, joiner.ledger, st.world.consensus.schedule, node);
      CompleteOrderly(st.ledger, joiner.ledger, st.world.consensus.schedule, node);
      IndexPositive(st, node);
      TipIndex(st, node);
      var refreshed := Refreshed(joiner, node.block);
      BlockReplaysIff(codec, st, node, events[0].now, refreshed, now);
      ReplayUnfolds(codec, joiner, st.ledger.Next(), now);
      RunConfigured(st);
      DemandsOfRun(codec, st, joiner, node.block, now);
      ProcessingKeepsConsensus(codec, refreshed, node, now);
      var next := ProcessBlock(codec, refreshed, node, true, now);
      if next.1.Done? {
        ReplayIff(codec, after, events[1..], next.0, now);
      }
    }
  }

  lemma RunConfigured(st: ChainState)
    requires BaseInvariant(st)
    ensures st.world.config.Some?
  {
  }

  lemma TipIndex(st: ChainState, node: ChainNode)
    requires AtTip(st, node)
    ensures node.block.index == st.ledger.Next()
  {
  }

  lemma LedgerCompletes(codec: Codec, st: ChainState, node: ChainNode, after: ChainState, rest: seq<Event>)
    requires BaseInvariant(after) && Accepted(codec, after, rest) && after.ledger == Appended(st.ledger, node)
    requires after.world.consensus.schedule == st.world.consensus.schedule
    ensures Complete(st.ledger, Run(codec, after, rest).0.ledger, st.world.consensus.schedule, node)
  {
    hide Run, Accepted, Linked, Orderly;
    RunExtends(codec, after, rest);
    BaseHolds(codec, after, rest);
  }

  /** The genesis block replayed on the complete ledger. */
  lemma GenesisReplays(codec: Codec, boot: ChainState, schedule: Ouroboros.Schedule, genesis: ChainNode, bootedAt: int,
                       joiner: ChainState, now: int)
    requires WindowsAreInt64(codec) && Booted(codec, boot, schedule, genesis, bootedAt)
    requires joiner == Initial(schedule).(ledger := joiner.ledger) && Extends(boot.ledger, joiner.ledger)
    requires Orderly(joiner.ledger, boot.world.consensus.schedule)
    ensures ProcessBlock(codec, joiner, genesis, true, now).1.Done?
    ensures SameWorld(boot.world, ProcessBlock(codec, joiner, genesis, true, now).0.world)
    ensures ProcessBlock(codec, joiner, genesis, true, now).0.world.consensus == boot.world.consensus
  {
    hide ProcessRecord, ProcessRecords, ValidateGenesisBlock, Orderly, WindowsAreInt64, LaterFrom;
    var w1 := BootUnfolds(codec, boot, schedule, genesis, bootedAt);
    var shorter := Initial(schedule).ledger;
    GenesisRecordsAreOrdinary(codec, genesis);
    AllLater(shorter, joiner.ledger);
    RecordReplays(codec, shorter, joiner.ledger, Initial(schedule).world, joiner.world, genesis.block.records[0], genesis.block);
    var v1 := ProcessRecord(codec, joiner.ledger, joiner.world, genesis.block.records[0], genesis.block, true).0;
    FirstRecordReplays(codec, shorter, joiner.ledger, joiner.world, genesis.block);
    KeepsConsensus(codec, shorter, w1, genesis.block, 1);
    RecordsReplay(codec, shorter, joiner.ledger, w1, v1, genesis.block, 1);
    KeepsConsensus(codec, joiner.ledger, v1, genesis.block, 1);
    FirstThenRest(codec, joiner, genesis.block, v1);
  }

  lemma AllLater(shorter: Ledger, longer: Ledger)
    requires Extends(shorter, longer)
    ensures LaterFrom(shorter, longer, 0)
  {
  }

  lemma FirstThenRest(codec: Codec, st: ChainState, block: Block, v1: World)
    requires |block.records| > 0 && ProcessRecord(codec, st.ledger, st.world, block.records[0], block, true) == (v1, Done)
    ensures ProcessRecords(codec, st.ledger, st.world, block, 0, true) == ProcessRecords(codec, st.ledger, v1, block, 1, true)
  {
    hide ProcessRecord;
  }

  lemma FirstRecordReplays(codec: Codec, shorter: Ledger, longer: Ledger, w: World, block: Block)
    requires |block.records| > 0 && DecodesGenesis(codec, block.records[0])
    ensures ProcessRecord(codec, longer, w, block.records[0], block, true) == ProcessRecord(codec, shorter, w, block.records[0], block, true)
  {
  }

  /** The records after the first leave schedule and stakes as the first has set them. */
  lemma {:induction false} KeepsConsensus(codec: Codec, l: Ledger, w: World, block: Block, i: nat)
    requires i <= |block.records| && ProcessRecords(codec, l, w, block, i, true).1.Done?
    requires forall j | i <= j < |block.records| ::
      codec.decode(block.records[j]).Some? && !codec.decode(block.records[j]).value.TxGenesis?
    ensures ProcessRecords(codec, l, w, block, i, true).0.consensus == w.consensus
    decreases |block.records| - i
  {
    hide ProcessRecord;
    if i < |block.records| {
      RecordKeeps(codec, l, w, block.records[i], block);
      KeepsConsensus(codec, l, ProcessRecord(codec, l, w, block.records[i], block, true).0, block, i + 1);
    }
  }

  lemma RecordKeeps(codec: Codec, l: Ledger, w: World, rec: Record, block: Block)
    requires codec.decode(rec).Some? && !codec.decode(rec).value.TxGenesis?
    ensures ProcessRecord(codec, l, w, rec, block, true).0.consensus == w.consensus
  {
  }

  /** A node of a running chain restarted from block 0 of its ledger: the load succeeds if and only if every block of the run
      meets the demands that are made of it anew, and then the node has exactly the accounts and the configuration it had. */
  lemma RestartIff(codec: Codec, boot: ChainState, schedule: Ouroboros.Schedule, genesis: ChainNode, bootedAt: int,
                   events: seq<Event>, now: int)
    requires WindowsAreInt64(codec) && Booted(codec, boot, schedule, genesis, bootedAt) && Accepted(codec, boot, events)
    ensures var full := Run(codec, boot, events).0; var joiner := Initial(schedule).(ledger := full.ledger);
      && (LoadFromLedger(codec, joiner, 0, now).1.Done? <==>
            RunDemands(codec, boot, events, boot.world.consensus, full.ledger, now))
      && (LoadFromLedger(codec, joiner, 0, now).1.Done? ==>
            && LoadFromLedger(codec, joiner, 0, now).0.world.accounts == full.world.accounts
            && LoadFromLedger(codec, joiner, 0, now).0.world.config == full.world.config)
  {
    hide ProcessBlock, Run, Accepted, Booted, Replay, RunDemands, Linked, Orderly, WindowsAreInt64;
    BootEstablishesBase(codec, boot, schedule, genesis, bootedAt);
    var full := Run(codec, boot, events).0;
    var joiner := Initial(schedule).(ledger := full.ledger);
    RunExtends(codec, boot, events);
    BaseHolds(codec, boot, events);
    GenesisReplays(codec, boot, schedule, genesis, bootedAt, joiner, now);
    FirstBlock(codec, boot, schedule, genesis, bootedAt, full.ledger);
    ReplayFirst(codec, joiner, genesis, now);
    ReplayIff(codec, boot, events, ProcessBlock(codec, joiner, genesis, true, now).0, now);
  }

  lemma FirstBlock(codec: Codec, boot: ChainState, schedule: Ouroboros.Schedule, genesis: ChainNode, bootedAt: int, l: Ledger)
    requires Booted(codec, boot, schedule, genesis, bootedAt) && Extends(boot.ledger, l)
    ensures l.start == 0 && l.Has(0) && l.nodes[0] == genesis && genesis.block.index == 0
    ensures boot.world.consensus.schedule.IsSet()
  {
    hide ProcessRecord, ProcessRecords, ValidateGenesisBlock;
    var w1 := BootUnfolds(codec, boot, schedule, genesis, bootedAt);
    assert boot.ledger.nodes[0] == genesis;
  }

  lemma ReplayFirst(codec: Codec, st: ChainState, genesis: ChainNode, now: int)
    requires st.ledger.Has(0) && st.ledger.start == 0 && st.ledger.nodes[0] == genesis && genesis.block.index == 0
    requires ProcessBlock(codec, st, genesis, true, now).1.Done?
    ensures Replay(codec, st, 0, true, now) == Replay(codec, ProcessBlock(codec, st, genesis, true, now).0, 1, true, now)
  {
    hide ProcessBlock;
  }

  // ----- when the renewals alone decide -----

  /** The chain is refreshed for a block's epoch before the block is offered, and its clock does not go back. */
  predicate InStep(st: ChainState, e: Event)
    requires st.world.consensus.schedule.IsSet()
  {
    var last := st.world.consensus.lastUpdateEpoch;
    match e
    case Offer(node, _) => last == Some(Ouroboros.EpochFromSlot(st.world.consensus.schedule, node.block.slot))
    case Refresh(epoch) => last.None? || last.value <= epoch
  }

  predicate InStepAlong(codec: Codec, st: ChainState, events: seq<Event>)
    decreases |events|
  {
    events == [] ||
    (st.world.consensus.schedule.IsSet() && InStep(st, events[0]) && InStepAlong(codec, Step(codec, st, events[0]).0, events[1..]))
  }

  /** Every block of the run renews what is demanded anew of the accounts the run had before it. */
  ghost predicate RenewsAlong(codec: Codec, st: ChainState, events: seq<Event>, full: Ledger, now: int) {
    forall k | 0 <= k < |events| && events[k].Offer? ::
      RenewsAnew(codec, Run(codec, st, events[..k]).0.world, full, events[k].node.block, now)
  }

  lemma RunBehind(codec: Codec, st: ChainState, events: seq<Event>, k: nat)
    requires 0 < k <= |events| && Step(codec, st, events[0]).1.Done?
    ensures Run(codec, st, events[..k]) == Run(codec, Step(codec, st, events[0]).0, events[1..][..k - 1])
  {
    hide Step;
    assert events[..k][1..] == events[1..][..k - 1];
  }

  lemma RenewsUnfolds(codec: Codec, st: ChainState, events: seq<Event>, full: Ledger, now: int)
    requires events != [] && Step(codec, st, events[0]).1.Done?
    ensures RenewsAlong(codec, st, events, full, now) <==>
      && (events[0].Offer? ==> RenewsAnew(codec, st.world, full, events[0].node.block, now))
      && RenewsAlong(codec, Step(codec, st, events[0]).0, events[1..], full, now)
  {
    hide Step, RenewsAnew;
    var next, rest := Step(codec, st, events[0]).0, events[1..];
    assert events[..0] == [];
    assert Run(codec, st, events[..0]) == (st, Done);
    if RenewsAlong(codec, st, events, full, now) {
      forall k | 0 <= k < |rest| && rest[k].Offer?
        ensures RenewsAnew(codec, Run(codec, next, rest[..k]).0.world, full, rest[k].node.block, now)
      {
        RunBehind(codec, st, events, k + 1);
        assert events[k + 1] == rest[k];
      }
    }
    forall k | 0 < k < |events|
      ensures rest[k - 1] == events[k] && Run(codec, st, events[..k]) == Run(codec, next, rest[..k - 1])
    {
      RunBehind(codec, st, events, k);
    }
  }

  /** The run's stakes are those a replay knows, or have just been refreshed for an epoch that the replay has yet to meet. */
  predicate SameStakes(known: Ouroboros.Consensus, st: ChainState) {
    var own := st.world.consensus;
    && known.schedule == own.schedule
    && if known.lastUpdateEpoch == own.lastUpdateEpoch then known.stakes == own.stakes
       else own.lastUpdateEpoch.Some? && own.stakes == StakesOf(st.world.accounts) &&
            (known.lastUpdateEpoch.None? || known.lastUpdateEpoch.value < own.lastUpdateEpoch.value)
  }

  lemma OfferSeesOwnStakes(known: Ouroboros.Consensus, st: ChainState, node: ChainNode, now: int)
    requires known.schedule.IsSet() && SameStakes(known, st) && InStep(st, Offer(node, now))
    ensures Seen(known, st.world.accounts, node.block.slot) == st.world.consensus
  {
    hide StakesOf;
  }

  lemma RefreshKeepsSameStakes(known: Ouroboros.Consensus, st: ChainState, epoch: nat)
    requires known.schedule.IsSet() && SameStakes(known, st) && InStep(st, Refresh(epoch))
    ensures SameStakes(known, st.(world := RefreshStakes(st.world, epoch)))
  {
    hide StakesOf;
  }

  lemma {:induction false} InStepDemands(codec: Codec, st: ChainState, events: seq<Event>, known: Ouroboros.Consensus, full: Ledger, now: int)
    requires BaseInvariant(st) && Accepted(codec, st, events) && InStepAlong(codec, st, events)
    requires known.schedule.IsSet() && SameStakes(known, st)
    ensures RunDemands(codec, st, events, known, full, now) <==> RenewsAlong(codec, st, events, full, now)
    decreases |events|
  {
    hide AddBlock, BaseInvariant, AtTip, InStep, SameStakes, RenewsAnew, ValidLeader, RenewsAlong, Seen, RefreshStakes;
    if events == [] {
      assert RenewsAlong(codec, st, events, full, now) by {
        NoBlocksNoDemands(codec, st, full, now);
      }
    } else {
      RenewsUnfolds(codec, st, events, full, now);
      var next := Step(codec, st, events[0]).0;
      match events[0] {
        case Refresh(epoch) =>
          RefreshKeepsBase(st, epoch);
          RefreshKeepsSameStakes(known, st, epoch);
          InStepDemands(codec, next, events[1..], known, full, now);
        case Offer(node, at) =>
          OfferSeesOwnStakes(known, st, node, at);
          LeaderWasValid(codec, st, node, at);
          OfferKeepsBase(codec, st, node, at);
          OwnStakesAreSame(next);
          InStepDemands(codec, next, events[1..], st.world.consensus, full, now);
      }
    }
  }

  lemma NoBlocksNoDemands(codec: Codec, st: ChainState, full: Ledger, now: int)
    ensures RenewsAlong(codec, st, [], full, now)
  {
  }

  lemma OwnStakesAreSame(st: ChainState)
    ensures SameStakes(st.world.consensus, st)
  {
  }

  lemma LeaderWasValid(codec: Codec, st: ChainState, node: ChainNode, now: int)
    requires BaseInvariant(st) && AtTip(st, node) && AddBlock(codec, st, node, now).1.Done?
    ensures st.world.consensus.schedule.IsSet() && ValidLeader(codec, st.world.consensus, node.block)
  {
    hide AddBlock, ValidLeader, Ouroboros.ValidBlockTiming, RenewalsComplete, MaxBlockIdForRenewal, WithinLimit, KeysDistinct;
    OfferUnfolds(codec, st, node, now);
  }

  lemma BootKnows(codec: Codec, boot: ChainState, schedule: Ouroboros.Schedule, genesis: ChainNode, bootedAt: int)
    requires Booted(codec, boot, schedule, genesis, bootedAt)
    ensures BaseInvariant(boot) && boot.world.consensus.schedule.IsSet()
  {
    hide AddBlock;
    BootEstablishesBase(codec, boot, schedule, genesis, bootedAt);
  }

  /** For a chain that is refreshed in step with its blocks a restart succeeds if and only if every block renewed what is
      demanded anew. */
  lemma RestartInStepIff(codec: Codec, boot: ChainState, schedule: Ouroboros.Schedule, genesis: ChainNode, bootedAt: int,
                         events: seq<Event>, now: int)
    requires WindowsAreInt64(codec) && Booted(codec, boot, schedule, genesis, bootedAt) && Accepted(codec, boot, events)
    requires InStepAlong(codec, boot, events)
    ensures var full := Run(codec, boot, events).0;
      LoadFromLedger(codec, Initial(schedule).(ledger := full.ledger), 0, now).1.Done? <==>
        RenewsAlong(codec, boot, events, full.ledger, now)
  {
    hide Booted, Accepted, Run, LoadFromLedger, RunDemands, RenewsAlong, InStepAlong, BaseInvariant, SameStakes, WindowsAreInt64;
    RestartIff(codec, boot, schedule, genesis, bootedAt, events, now);
    BootKnows(codec, boot, schedule, genesis, bootedAt);
    OwnStakesAreSame(boot);
    InStepDemands(codec, boot, events, boot.world.consensus, Run(codec, boot, events).0.ledger, now);
  }

  // ----- the clock -----

  /** The deadline that the number of blocks alone sets. */
  function CountDeadline(config: BlockChainConfig, index: nat): nat {
    if 2 <= config.checkpoint.minBlocks <= index then index - config.checkpoint.minBlocks + 1 else 0
  }

  /** No block of the ledger is young for these settings. */
  predicate AllOld(l: Ledger, config: BlockChainConfig, now: int) {
    config.checkpoint.minAgeSeconds > 0 ==> forall i | l.start <= i < l.Next() :: l.At(i).timestamp < now - ToInt64(config.checkpoint.minAgeSeconds)
  }

  lemma OldDeadline(l: Ledger, c: Ouroboros.Schedule, config: BlockChainConfig, p: Checkpoint, index: nat, now: int)
    requires Orderly(l, c) && AllOld(l, config, now)
    ensures MaxBlockIdForRenewal(l, Some(config), p, index, now) == Ok(CountDeadline(config, index))
  {
    hide FindBlockByTimestamp, Orderly;
    OrderlyTimestamps(l, c);
    FindsFirst(l, now - ToInt64(config.checkpoint.minAgeSeconds));
  }

  /** The state before the `k`-th event of a run. */
  lemma StateBefore(codec: Codec, st: ChainState, events: seq<Event>, k: nat)
    requires BaseInvariant(st) && Accepted(codec, st, events) && k < |events|
    ensures var at := Run(codec, st, events[..k]).0;
      && BaseInvariant(at) && at.world.config.Some?
      && (events[k].Offer? ==> AtTip(at, events[k].node) && AddBlock(codec, at, events[k].node, events[k].now).1.Done?)
  {
    hide BaseInvariant, AtTip, AddBlock, Run;
    RunSplits(codec, st, events, k);
    BaseHolds(codec, st, events[..k]);
    RunConfigured(Run(codec, st, events[..k]).0);
    assert events[k..][0] == events[k];
  }

  lemma {:induction false} DemandsIncludeRenewals(codec: Codec, st: ChainState, events: seq<Event>, known: Ouroboros.Consensus, full: Ledger, now: int)
    requires known.schedule.IsSet() && Accepted(codec, st, events) && RunDemands(codec, st, events, known, full, now)
    ensures RenewsAlong(codec, st, events, full, now)
    decreases |events|
  {
    hide AddBlock, AtTip, RenewsAnew, ValidLeader, RenewsAlong, Seen, RefreshStakes;
    if events == [] {
      NoBlocksNoDemands(codec, st, full, now);
    } else {
      RenewsUnfolds(codec, st, events, full, now);
      var seen := if events[0].Offer? then Seen(known, st.world.accounts, events[0].node.block.slot) else known;
      DemandsIncludeRenewals(codec, Step(codec, st, events[0]).0, events[1..], seen, full, now);
    }
  }

  /** What stops restarts for good: a block that renewed none of the accounts one of which was last set `minBlocks` blocks
      before it or earlier. Once the chain's blocks are older than the minimum age, no restart from block 0 succeeds. */
  lemma MissedRenewalStopsRestart(codec: Codec, boot: ChainState, schedule: Ouroboros.Schedule, genesis: ChainNode, bootedAt: int,
                                  events: seq<Event>, k: nat, id: Id, now: int)
    requires WindowsAreInt64(codec) && Booted(codec, boot, schedule, genesis, bootedAt) && Accepted(codec, boot, events)
    requires k < |events| && events[k].Offer? && Run(codec, boot, events[..k]).0.world.config.Some?
    requires var w := Run(codec, boot, events[..k]).0.world; var block := events[k].node.block;
      && 2 <= w.config.value.checkpoint.minBlocks <= block.index
      && AllOld(Run(codec, boot, events).0.ledger, w.config.value, now)
      && id in w.accounts && w.accounts[id].blockId <= block.index - w.config.value.checkpoint.minBlocks
      && id !in RenewedIn(codec, block.records)
    ensures LoadFromLedger(codec, Initial(schedule).(ledger := Run(codec, boot, events).0.ledger), 0, now).1.Failed?
  {
    hide Booted, Accepted, Run, LoadFromLedger, RunDemands, AllOld, BaseInvariant, RenewedIn, WindowsAreInt64, MaxBlockIdForRenewal,
      Orderly, Linked;
    var full := Run(codec, boot, events).0;
    RestartIff(codec, boot, schedule, genesis, bootedAt, events, now);
    BootKnows(codec, boot, schedule, genesis, bootedAt);
    RunIsOrderly(codec, boot, events);
    if RunDemands(codec, boot, events, boot.world.consensus, full.ledger, now) {
      DemandsIncludeRenewals(codec, boot, events, boot.world.consensus, full.ledger, now);
      var w := Run(codec, boot, events[..k]).0.world;
      assert RenewsAnew(codec, w, full.ledger, events[k].node.block, now);
      OldDeadline(full.ledger, full.world.consensus.schedule, w.config.value, Checkpoint(0, 0), events[k].node.block.index, now);
    }
  }

  lemma RunIsOrderly(codec: Codec, st: ChainState, events: seq<Event>)
    requires BaseInvariant(st) && Accepted(codec, st, events)
    ensures Orderly(Run(codec, st, events).0.ledger, Run(codec, st, events).0.world.consensus.schedule)
  {
    hide Orderly, Linked, Run, Accepted;
    BaseHolds(codec, st, events);
  }

  /** Every block renewed what the number of blocks alone demands. */
  ghost predicate RenewsByCount(codec: Codec, st: ChainState, events: seq<Event>) {
    forall k | 0 <= k < |events| && events[k].Offer? ::
      var w := Run(codec, st, events[..k]).0.world; var block := events[k].node.block;
      w.config.Some? && RenewalsComplete(codec, w.accounts, CountDeadline(w.config.value, block.index), block.records)
  }

  /** No block of the ledger is young for the settings any block was offered under. */
  ghost predicate OldAlong(codec: Codec, st: ChainState, events: seq<Event>, full: Ledger, now: int) {
    forall k | 0 <= k < |events| && events[k].Offer? ::
      var w := Run(codec, st, events[..k]).0.world;
      w.config.Some? ==> AllOld(full, w.config.value, now)
  }

  /** Once all blocks are old, whatever the clock: a restart succeeds if and only if every block renewed what the number of
      blocks alone demands. */
  lemma OldRestartIff(codec: Codec, boot: ChainState, schedule: Ouroboros.Schedule, genesis: ChainNode, bootedAt: int,
                      events: seq<Event>, now: int)
    requires WindowsAreInt64(codec) && Booted(codec, boot, schedule, genesis, bootedAt) && Accepted(codec, boot, events)
    requires InStepAlong(codec, boot, events) && OldAlong(codec, boot, events, Run(codec, boot, events).0.ledger, now)
    ensures var full := Run(codec, boot, events).0;
      LoadFromLedger(codec, Initial(schedule).(ledger := full.ledger), 0, now).1.Done? <==> RenewsByCount(codec, boot, events)
  {
    hide Booted, Accepted, Run, LoadFromLedger, AllOld, BaseInvariant, InStepAlong, WindowsAreInt64, MaxBlockIdForRenewal, Orderly,
      RenewalsComplete, CountDeadline;
    RestartInStepIff(codec, boot, schedule, genesis, bootedAt, events, now);
    BootKnows(codec, boot, schedule, genesis, bootedAt);
    RunIsOrderly(codec, boot, events);
    var full := Run(codec, boot, events).0;
    forall k | 0 <= k < |events| && events[k].Offer?
      ensures var w := Run(codec, boot, events[..k]).0.world; var block := events[k].node.block;
        w.config.Some? && (RenewsAnew(codec, w, full.ledger, block, now) <==>
          RenewalsComplete(codec, w.accounts, CountDeadline(w.config.value, block.index), block.records))
    {
      StateBefore(codec, boot, events, k);
      var w := Run(codec, boot, events[..k]).0.world;
      OldDeadline(full.ledger, full.world.consensus.schedule, w.config.value, Checkpoint(0, 0), events[k].node.block.index, now);
    }
  }

  /** The checkpoint settings never have a minimum age. */
  ghost predicate Ageless(codec: Codec, st: ChainState, events: seq<Event>) {
    forall k | 0 <= k < |events| && events[k].Offer? ::
      var w := Run(codec, st, events[..k]).0.world;
      w.config.Some? && w.config.value.checkpoint.minAgeSeconds == 0
  }

  /** Without a minimum age every chain that is refreshed in step can be restarted, at any time, and is restored exactly. */
  lemma AgelessRestarts(codec: Codec, boot: ChainState, schedule: Ouroboros.Schedule, genesis: ChainNode, bootedAt: int,
                        events: seq<Event>, now: int)
    requires WindowsAreInt64(codec) && Booted(codec, boot, schedule, genesis, bootedAt) && Accepted(codec, boot, events)
    requires InStepAlong(codec, boot, events) && Ageless(codec, boot, events)
    ensures var full := Run(codec, boot, events).0; var r := LoadFromLedger(codec, Initial(schedule).(ledger := full.ledger), 0, now);
      r.1.Done? && r.0.world.accounts == full.world.accounts && r.0.world.config == full.world.config
  {
    hide Booted, Accepted, Run, LoadFromLedger, BaseInvariant, InStepAlong, WindowsAreInt64, RenewalsComplete, CountDeadline;
    BootKnows(codec, boot, schedule, genesis, bootedAt);
    forall k | 0 <= k < |events| && events[k].Offer?
      ensures var w := Run(codec, boot, events[..k]).0.world; var block := events[k].node.block;
        && w.config.Some? && AllOld(Run(codec, boot, events).0.ledger, w.config.value, now)
        && RenewalsComplete(codec, w.accounts, CountDeadline(w.config.value, block.index), block.records)
    {
      StateBefore(codec, boot, events, k);
      OfferMetCount(codec, Run(codec, boot, events[..k]).0, events[k].node, events[k].now);
    }
    OldRestartIff(codec, boot, schedule, genesis, bootedAt, events, now);
    RestartIff(codec, boot, schedule, genesis, bootedAt, events, now);
  }

  /** Without a minimum age an accepted block has renewed what the number of blocks demands. */
  lemma OfferMetCount(codec: Codec, st: ChainState, node: ChainNode, now: int)
    requires BaseInvariant(st) && AtTip(st, node) && AddBlock(codec, st, node, now).1.Done?
    requires st.world.config.Some? && st.world.config.value.checkpoint.minAgeSeconds == 0
    ensures RenewalsComplete(codec, st.world.accounts, CountDeadline(st.world.config.value, node.block.index), node.block.records)
  {
    hide AddBlock, RenewalsComplete, ValidLeader, Ouroboros.ValidBlockTiming, WithinLimit, KeysDistinct;
    OfferUnfolds(codec, st, node, now);
    OldDeadline(st.ledger, st.world.consensus.schedule, st.world.config.value, st.checkpoint, node.block.index, now);
  }

  // ----- the checkpoint pair of the restarted node -----

  predicate Steady(config: Option<BlockChainConfig>, settings: CheckpointConfig, top: nat) {
    config.Some? && config.value.checkpoint == settings && top + settings.minBlocks + config.value.slotsPerEpoch < TWO_64
  }

  /** The checkpoint settings are the same all along, and no sum with them wraps up to this block. */
  predicate SteadyAlong(codec: Codec, st: ChainState, events: seq<Event>, settings: CheckpointConfig, top: nat)
    decreases |events|
  {
    Steady(st.world.config, settings, top) &&
    (events == [] || SteadyAlong(codec, Step(codec, st, events[0]).0, events[1..], settings, top))
  }

  /** The deadline that a restart sees for a block, for these settings. */
  function DeadlineAnew(full: Ledger, settings: CheckpointConfig, index: nat, now: int): nat {
    var config := BlockChainConfig(0, 0, 0, 0, 0, [], 0, settings, 0);
    MaxBlockIdForRenewal(full, Some(config), Checkpoint(0, 0), index, now).value
  }

  lemma SteadyDeadline(full: Ledger, config: Option<BlockChainConfig>, settings: CheckpointConfig, top: nat, index: nat, now: int)
    requires Steady(config, settings, top)
    ensures MaxBlockIdForRenewal(full, config, Checkpoint(0, 0), index, now) == Ok(DeadlineAnew(full, settings, index, now))
    ensures DeadlineAnew(full, settings, index, now) <= index
  {
  }

  /** Every account was set at or after the deadline that a restart sees for the last block. */
  ghost predicate MetAnew(st: ChainState, full: Ledger, settings: CheckpointConfig, now: int) {
    st.ledger.Next() > 0 &&
    forall id | id in st.world.accounts ::
      DeadlineAnew(full, settings, st.ledger.Next() - 1, now) <= st.world.accounts[id].blockId < st.ledger.Next()
  }

  lemma OfferMeetsAnew(codec: Codec, st: ChainState, node: ChainNode, at: int, full: Ledger, settings: CheckpointConfig, now: int, top: nat)
    requires BaseInvariant(st) && AtTip(st, node) && AddBlock(codec, st, node, at).1.Done?
    requires MetAnew(st, full, settings, now) && Steady(st.world.config, settings, top)
    requires RenewsAnew(codec, st.world, full, node.block, now)
    ensures MetAnew(AddBlock(codec, st, node, at).0, full, settings, now)
  {
    hide AddBlock, DeadlineAnew, MaxBlockIdForRenewal, RenewalsComplete, ProcessRecords, Linked, Orderly, ValidateStrict, CheckSequence,
      Rotate, Steady;
    OfferUnfolds(codec, st, node, at);
    TipIndex(st, node);
    SteadyDeadline(full, st.world.config, settings, top, node.block.index, now);
    RenewedInTime(codec, st, node, DeadlineAnew(full, settings, node.block.index, now));
  }

  lemma {:induction false} RunMeetsAnew(codec: Codec, st: ChainState, events: seq<Event>, full: Ledger, settings: CheckpointConfig, now: int, top: nat)
    requires BaseInvariant(st) && Accepted(codec, st, events) && RenewsAlong(codec, st, events, full, now)
    requires MetAnew(st, full, settings, now) && SteadyAlong(codec, st, events, settings, top)
    ensures MetAnew(Run(codec, st, events).0, full, settings, now)
    decreases |events|
  {
    hide AddBlock, BaseInvariant, AtTip, RenewsAnew, RenewsAlong, RefreshStakes, DeadlineAnew;
    if events != [] {
      RenewsUnfolds(codec, st, events, full, now);
      var next := Step(codec, st, events[0]).0;
      match events[0] {
        case Refresh(epoch) =>
          RefreshKeepsBase(st, epoch);
          assert next.ledger == st.ledger && next.world.accounts == st.world.accounts;
        case Offer(node, at) =>
          OfferKeepsBase(codec, st, node, at);
          OfferMeetsAnew(codec, st, node, at, full, settings, now, top);
      }
      RunMeetsAnew(codec, next, events[1..], full, settings, now, top);
    }
  }

  /** The block is old enough to have become the last checkpoint of a restart. */
  predicate OldEnough(full: Ledger, settings: CheckpointConfig, id: nat, now: int) {
    id == 0 || (full.Has(id) && id + settings.minBlocks <= full.Next() &&
                (settings.minAgeSeconds > 0 ==> full.At(id).timestamp <= now - settings.minAgeSeconds))
  }

  predicate PairAged(p: Checkpoint, next: nat, full: Ledger, settings: CheckpointConfig, now: int) {
    && p.lastId <= p.currentId < next <= full.Next() && (p.currentId == 0 || p.lastId < p.currentId)
    && OldEnough(full, settings, p.lastId, now)
  }

  lemma RotationKeepsPair(p: Checkpoint, config: Option<BlockChainConfig>, index: nat, full: Ledger, settings: CheckpointConfig, now: int)
    requires PairAged(p, index, full, settings, now) && full.start == 0 && full.Has(index) && Steady(config, settings, full.Next())
    ensures PairAged(Rotate(full, config, p, index, now), index + 1, full, settings, now)
  {
  }

  lemma {:induction false} ReplayKeepsPair(codec: Codec, st: ChainState, events: seq<Event>, joiner: ChainState, settings: CheckpointConfig, now: int)
    requires WindowsAreInt64(codec) && BaseInvariant(st) && Accepted(codec, st, events) && SameWorld(st.world, joiner.world)
    requires joiner.ledger == Run(codec, st, events).0.ledger && joiner.world.consensus.schedule.IsSet()
    requires SteadyAlong(codec, st, events, settings, joiner.ledger.Next())
    requires PairAged(joiner.checkpoint, st.ledger.Next(), joiner.ledger, settings, now)
    requires Replay(codec, joiner, st.ledger.Next(), true, now).1.Done?
    ensures PairAged(Replay(codec, joiner, st.ledger.Next(), true, now).0.checkpoint, joiner.ledger.Next(), joiner.ledger, settings, now)
    ensures Replay(codec, joiner, st.ledger.Next(), true, now).0.ledger == joiner.ledger
    decreases |events|
  {
    hide AddBlock, ProcessBlock, BaseInvariant, AtTip, Demands, RefreshStakes, WindowsAreInt64, Complete, Seen, PairAged, Steady;
    if events == [] {
      assert !joiner.ledger.Has(st.ledger.Next());
    } else if events[0].Refresh? {
      RefreshKeepsBase(st, events[0].epoch);
      ReplayKeepsPair(codec, Step(codec, st, events[0]).0, events[1..], joiner, settings, now);
    } else {
      var node := events[0].node;
      var after := AddBlock(codec, st, node, events[0].now).0;
      OfferKeepsBase(codec, st, node, events[0].now);
      OfferAppends(codec, st, node, events[0].now);
      LedgerCompletes(codec, st, node, after, events[1..]);
      CompleteKnows(st.ledger, joiner.ledger, st.world.consensus.schedule, node);
      CompleteOrderly(st.ledger, joiner.ledger, st.world.consensus.schedule, node);
      IndexPositive(st, node);
      TipIndex(st, node);
      var refreshed := Refreshed(joiner, node.block);
      BlockReplaysIff(codec, st, node, events[0].now, refreshed, now);
      ReplayUnfolds(codec, joiner, st.ledger.Next(), now);
      ProcessingKeepsConsensus(codec, refreshed, node, now);
      var next := ProcessBlock(codec, refreshed, node, true, now);
      SteadyStart(codec, after, events[1..], settings, joiner.ledger.Next());
      RotatedBy(codec, refreshed, node, now);
      StartsAtZero(st);
      RotationKeepsPair(joiner.checkpoint, next.0.world.config, node.block.index, joiner.ledger, settings, now);
      ReplayKeepsPair(codec, after, events[1..], next.0, settings, now);
    }
  }

  lemma SteadyStart(codec: Codec, st: ChainState, events: seq<Event>, settings: CheckpointConfig, top: nat)
    requires SteadyAlong(codec, st, events, settings, top)
    ensures Steady(st.world.config, settings, top)
  {
  }

  lemma StartsAtZero(st: ChainState)
    requires BaseInvariant(st)
    ensures st.ledger.start == 0
  {
  }

  lemma RotatedBy(codec: Codec, st: ChainState, node: ChainNode, now: int)
    requires node.block.index != 0 && ProcessBlock(codec, st, node, true, now).1.Done?
    ensures var next := ProcessBlock(codec, st, node, true, now).0;
      next.ledger == st.ledger && next.checkpoint == Rotate(st.ledger, next.world.config, st.checkpoint, node.block.index, now)
  {
    hide ProcessRecords, ValidateBlock, Rotate;
  }

  /** What became the last checkpoint of the restart lies before everything the last block renewed. */
  lemma OldEnoughIsMet(full: Ledger, c: Ouroboros.Schedule, settings: CheckpointConfig, id: nat, now: int)
    requires Orderly(full, c) && full.start == 0 && full.nodes != [] && (forall i | full.Has(i) :: full.At(i).index == i)
    requires OldEnough(full, settings, id, now) && 2 <= settings.minBlocks && settings.minAgeSeconds <= INT64_MAX
    ensures id <= DeadlineAnew(full, settings, full.Next() - 1, now)
  {
    hide FindBlockByTimestamp, Orderly;
    OrderlyTimestamps(full, c);
    var cutoff := now - settings.minAgeSeconds;
    FindsFirst(full, cutoff);
    var found := FindBlockByTimestamp(full, cutoff);
    if id > 0 && settings.minAgeSeconds > 0 && found.Some? {
      assert full.At(found.value).index == found.value;
      assert found.value >= id;
    }
  }

  /** A chain whose checkpoint settings never change, and span two blocks or more, is restarted with a safe checkpoint pair: no
      account was last set before the last checkpoint. The pair need not be the one the chain had. */
  lemma RestartIsSafe(codec: Codec, boot: ChainState, schedule: Ouroboros.Schedule, genesis: ChainNode, bootedAt: int,
                      events: seq<Event>, settings: CheckpointConfig, now: int)
    requires WindowsAreInt64(codec) && Booted(codec, boot, schedule, genesis, bootedAt) && Accepted(codec, boot, events)
    requires SteadyAlong(codec, boot, events, settings, Run(codec, boot, events).0.ledger.Next())
    requires 2 <= settings.minBlocks && settings.minAgeSeconds <= INT64_MAX
    requires LoadFromLedger(codec, Initial(schedule).(ledger := Run(codec, boot, events).0.ledger), 0, now).1.Done?
    ensures CheckpointInvariant(LoadFromLedger(codec, Initial(schedule).(ledger := Run(codec, boot, events).0.ledger), 0, now).0)
  {
    hide ProcessBlock, Run, Accepted, Booted, Replay, RunDemands, Linked, Orderly, WindowsAreInt64, SteadyAlong, RenewsAlong,
      DeadlineAnew, PairAged;
    RestartIff(codec, boot, schedule, genesis, bootedAt, events, now);
    BootEstablishesBase(codec, boot, schedule, genesis, bootedAt);
    var full := Run(codec, boot, events).0;
    var joiner := Initial(schedule).(ledger := full.ledger);
    RunExtends(codec, boot, events);
    BaseHolds(codec, boot, events);
    GenesisReplays(codec, boot, schedule, genesis, bootedAt, joiner, now);
    FirstBlock(codec, boot, schedule, genesis, bootedAt, full.ledger);
    ReplayFirst(codec, joiner, genesis, now);
    var begun := ProcessBlock(codec, joiner, genesis, true, now).0;
    FirstPair(codec, joiner, genesis, settings, now);
    ReplayKeepsPair(codec, boot, events, begun, settings, now);
    DemandsIncludeRenewals(codec, boot, events, boot.world.consensus, full.ledger, now);
    MetAtFirst(codec, boot, schedule, genesis, bootedAt, full.ledger, settings, now);
    RunMeetsAnew(codec, boot, events, full.ledger, settings, now, full.ledger.Next());
    ReplayIff(codec, boot, events, begun, now);
    var last := Replay(codec, begun, 1, true, now).0;
    PairKnows(last.checkpoint, full.ledger, settings, now);
    IndexedByPlace(full);
    OldEnoughIsMet(full.ledger, full.world.consensus.schedule, settings, last.checkpoint.lastId, now);
  }

  lemma PairKnows(p: Checkpoint, full: Ledger, settings: CheckpointConfig, now: int)
    requires PairAged(p, full.Next(), full, settings, now)
    ensures p.lastId <= p.currentId < full.Next() && (p.currentId == 0 || p.lastId < p.currentId)
    ensures OldEnough(full, settings, p.lastId, now)
  {
  }

  lemma IndexedByPlace(st: ChainState)
    requires BaseInvariant(st)
    ensures forall i | st.ledger.Has(i) :: st.ledger.At(i).index == i
  {
  }

  lemma FirstPair(codec: Codec, joiner: ChainState, genesis: ChainNode, settings: CheckpointConfig, now: int)
    requires joiner.checkpoint == Checkpoint(0, 0) && genesis.block.index == 0 && joiner.ledger.start == 0 && joiner.ledger.nodes != []
    ensures PairAged(ProcessBlock(codec, joiner, genesis, true, now).0.checkpoint, 1, joiner.ledger, settings, now)
  {
    hide ProcessRecords, ValidateGenesisBlock;
  }

  lemma MetAtFirst(codec: Codec, boot: ChainState, schedule: Ouroboros.Schedule, genesis: ChainNode, bootedAt: int, full: Ledger,
                   settings: CheckpointConfig, now: int)
    requires Booted(codec, boot, schedule, genesis, bootedAt)
    ensures MetAnew(boot, full, settings, now)
  {
    hide Booted;
    BootEstablishesBase(codec, boot, schedule, genesis, bootedAt);
    BootEstablishesCheckpoint(codec, boot, schedule, genesis, bootedAt);
  }
}
