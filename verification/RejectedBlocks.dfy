/** Going on after rejected blocks. What a rejected block leaves behind is not undone: the records before the one that failed stay
    applied. This module says what that is, what holds all the same in every state of every run, and what does not. */
module RejectedBlocks {
  import opened Numbers
  import opened Outcomes
  import opened ChainTypes
  import opened Bank
  import opened BankTotals
  import opened Conservation
  import opened LedgerView
  import opened TxHandlers
  import opened TxIdempotency
  import opened BlockValidation
  import opened ChainSpec
  import opened Runs
  import opened AtMostOnce
  import opened CheckpointSafety
  import opened ConfigHistory
  import Mining
  import Ouroboros

  // ----- what a rejected block leaves -----

  /** How many records from position `i` on are applied before one fails. */
  function AppliedCount(codec: Codec, l: Ledger, w: World, block: Block, i: nat): (n: nat)
    requires i <= |block.records|
    ensures i <= n <= |block.records|
    decreases |block.records| - i
  {
    if i == |block.records| then i
    else
      var (next, s) := ProcessRecord(codec, l, w, block.records[i], block, true);
      if s.Failed? then i else AppliedCount(codec, l, next, block, i + 1)
  }

  /** The block cut off in front of a record. */
  function Cut(block: Block, n: nat): Block
    requires n <= |block.records|
  {
    block.(records := block.records[..n])
  }

  /** The world behind the records that were applied. */
  function LeftBy(codec: Codec, l: Ledger, w: World, block: Block): World {
    ProcessRecords(codec, l, w, Cut(block, AppliedCount(codec, l, w, block, 0)), 0, true).0
  }

  /** A failing record changes nothing by itself: it does not decode, is not signed well, ends an account, or meets a fee account
      with room for what it pays. */
  predicate FailsCleanly(codec: Codec, w: World, rec: Record, block: Block) {
    ValidateTxSignatures(codec, w.accounts, rec, block.slotLeader, true).Done? && codec.decode(rec).Some? ==>
      var tx := codec.decode(rec).value;
      tx.TxGenesis? || tx.TxEndUser? || Mining.FeeRoom(w.accounts, tx)
  }

  lemma FailedRecordKeeps(codec: Codec, l: Ledger, w: World, rec: Record, block: Block)
    requires block.index != 0 && ProcessRecord(codec, l, w, rec, block, true).1.Failed? && FailsCleanly(codec, w, rec, block)
    ensures ProcessRecord(codec, l, w, rec, block, true).0 == w
  {
    hide ValidateTxSignatures, Handle, Idempotency, Mining.FeeRoom;
    var tx := codec.decode(rec);
    if tx.Some? && !tx.value.TxGenesis? {
      var cx := ContextOf(codec, l, w);
      if Handle(cx, tx.value, w.accounts, map[], block.index, true).1.Failed? &&
         ValidateTxSignatures(codec, w.accounts, rec, block.slotLeader, true).Done? {
        Mining.HandleFailureKeeps(cx, tx.value, w.accounts, map[], block.index);
      }
    }
  }

  lemma {:induction false} FailedRecordsLeave(codec: Codec, l: Ledger, w: World, block: Block, i: nat)
    requires i <= |block.records| && ProcessRecords(codec, l, w, block, i, true).1.Failed?
    ensures AppliedCount(codec, l, w, block, i) < |block.records|
    ensures var n := AppliedCount(codec, l, w, block, i); var left := ProcessRecords(codec, l, w, Cut(block, n), i, true);
      && left.1.Done?
      && ProcessRecord(codec, l, left.0, block.records[n], block, true).1.Failed?
      && ProcessRecords(codec, l, w, block, i, true).0 == ProcessRecord(codec, l, left.0, block.records[n], block, true).0
    decreases |block.records| - i
  {
    hide ValidateTxSignatures, ApplyBlock;
    var (next, s) := ProcessRecord(codec, l, w, block.records[i], block, true);
    var n := AppliedCount(codec, l, w, block, i);
    if s.Done? {
      FailedRecordsLeave(codec, l, next, block, i + 1);
      var cut := Cut(block, n);
      assert cut.records[i] == block.records[i] && cut.index == block.index && cut.slotLeader == block.slotLeader && cut.slot == block.slot;
      assert ProcessRecord(codec, l, w, cut.records[i], cut, true) == (next, s);
    }
  }

  /** A block with the next number, or a later one, that the chain rejects: ledger, checkpoints, slot schedule and stakes stay as they
      are. The accounts and the configuration stay too when validation refused the block. Otherwise a first part of its records,
      short of at least one, has been accepted one after another and stays applied, with nothing else if the record that failed
      fails cleanly. */
  lemma RejectedLeaves(codec: Codec, st: ChainState, node: ChainNode, now: int)
    requires BaseInvariant(st) && node.block.index >= st.ledger.Next() && AddBlock(codec, st, node, now).1.Failed?
    ensures var next := AddBlock(codec, st, node, now).0; var n := AppliedCount(codec, st.ledger, st.world, node.block, 0);
      && next.ledger == st.ledger && next.checkpoint == st.checkpoint && next.world.consensus == st.world.consensus
      && BaseInvariant(next)
      && (ValidateBlock(codec, st, node, true, now).Failed? ==> next == st)
      && (ValidateBlock(codec, st, node, true, now).Done? ==>
            && n < |node.block.records| && node.block.index == st.ledger.Next()
            && ProcessRecords(codec, st.ledger, st.world, Cut(node.block, n), 0, true).1.Done?
            && (FailsCleanly(codec, LeftBy(codec, st.ledger, st.world, node.block), node.block.records[n], node.block) ==>
                  next.world == LeftBy(codec, st.ledger, st.world, node.block)))
  {
    hide ProcessRecords, ProcessRecord, ValidateStrict, Linked, Orderly, FailsCleanly, Rotate;
    RecordsKeepConsensus(codec, st.ledger, st.world, node.block, 0, true);
    if ValidateBlock(codec, st, node, true, now).Done? {
      FailedRecordsLeave(codec, st.ledger, st.world, node.block, 0);
      var n := AppliedCount(codec, st.ledger, st.world, node.block, 0);
      var left := LeftBy(codec, st.ledger, st.world, node.block);
      if FailsCleanly(codec, left, node.block.records[n], node.block) {
        FailedRecordKeeps(codec, st.ledger, left, node.block.records[n], node.block);
      }
    }
  }

  // ----- runs that go on -----

  /** The state after the events, whatever becomes of each. */
  function Carry(codec: Codec, st: ChainState, events: seq<Event>): ChainState
    decreases |events|
  {
    if events == [] then st else Carry(codec, Step(codec, st, events[0]).0, events[1..])
  }

  /** No block with a lower number than the next one is offered, and an accepted one is what the source expects of a block. */
  predicate Tried(codec: Codec, st: ChainState, e: Event) {
    e.Offer? ==> e.node.block.index >= st.ledger.Next() && (AddBlock(codec, st, e.node, e.now).1.Done? ==> AtTip(st, e.node))
  }

  predicate TriedAlong(codec: Codec, st: ChainState, events: seq<Event>)
    decreases |events|
  {
    events == [] || (Tried(codec, st, events[0]) && TriedAlong(codec, Step(codec, st, events[0]).0, events[1..]))
  }

  /** The stamps after rejected blocks: none before the last checkpoint, none behind the next block. */
  ghost predicate StampsInvariant(st: ChainState) {
    && BaseInvariant(st)
    && forall id | id in st.world.accounts :: st.checkpoint.lastId <= st.world.accounts[id].blockId <= st.ledger.Next()
  }

  lemma {:induction false} AppliedStamps(codec: Codec, l: Ledger, w: World, block: Block, i: nat)
    requires i <= |block.records|
    ensures StampedOrKept(w.accounts, ProcessRecords(codec, l, w, block, i, true).0.accounts, block.index)
    decreases |block.records| - i
  {
    hide ProcessRecord;
    if i < |block.records| {
      var (mid, s) := ProcessRecord(codec, l, w, block.records[i], block, true);
      RecordStamps(codec, l, w, block.records[i], block);
      if s.Done? {
        AppliedStamps(codec, l, mid, block, i + 1);
        StampsCompose(w.accounts, mid.accounts, ProcessRecords(codec, l, mid, block, i + 1, true).0.accounts, block.index);
      }
    }
  }

  lemma RejectedStamps(codec: Codec, st: ChainState, node: ChainNode, now: int)
    requires StampsInvariant(st) && node.block.index >= st.ledger.Next() && AddBlock(codec, st, node, now).1.Failed?
    ensures StampsInvariant(AddBlock(codec, st, node, now).0)
    ensures Tightens(st.world.config, AddBlock(codec, st, node, now).0.world.config)
  {
    hide ProcessRecords, ProcessRecord, ValidateStrict, Linked, Orderly, Rotate, FailsCleanly, LeftBy, AppliedCount;
    RejectedLeaves(codec, st, node, now);
    AppliedStamps(codec, st.ledger, st.world, node.block, 0);
    RecordsTighten(codec, st.ledger, st.world, node.block, 0);
  }

  lemma AcceptedStamps(codec: Codec, st: ChainState, node: ChainNode, now: int)
    requires StampsInvariant(st) && AtTip(st, node) && AddBlock(codec, st, node, now).1.Done?
    requires RotatesSafely(st, AddBlock(codec, st, node, now).0)
    ensures StampsInvariant(AddBlock(codec, st, node, now).0)
    ensures Tightens(st.world.config, AddBlock(codec, st, node, now).0.world.config)
  {
    OfferKeepsBase(codec, st, node, now);
    DeadlineMet(codec, st, node, now);
    OfferUnfolds(codec, st, node, now);
    RecordsStamp(codec, st.ledger, st.world, node.block, 0);
    TipIsNotGenesis(st, node);
    RecordsTighten(codec, st.ledger, st.world, node.block, 0);
    hide AddBlock, Linked, Orderly, ProcessRecords;
    var after := ProcessRecords(codec, st.ledger, st.world, node.block, 0, true).0;
    if Rotate(st.ledger, after.config, st.checkpoint, node.block.index, now).lastId != st.checkpoint.lastId {
      RotationFollowsDeadline(st, after.config, node.block.index, now);
    }
  }

  /** In every state of every run, whatever was rejected on the way: the ledger is in order, no account was last set before the last
      checkpoint, none later than by the next block, and the configuration has only been tightened. */
  lemma {:induction false} StampsHold(codec: Codec, st: ChainState, events: seq<Event>)
    requires StampsInvariant(st) && TriedAlong(codec, st, events) && RotatesSafelyAlong(codec, st, events)
    ensures StampsInvariant(Carry(codec, st, events))
    ensures Tightens(st.world.config, Carry(codec, st, events).world.config)
    ensures Carry(codec, st, events).world.consensus.schedule == st.world.consensus.schedule
    decreases |events|
  {
    hide AddBlock, AtTip, RotatesSafely, Linked, Orderly;
    if events != [] {
      var next := Step(codec, st, events[0]).0;
      match events[0] {
        case Refresh(epoch) => RefreshKeepsBase(st, epoch);
        case Offer(node, now) =>
          if AddBlock(codec, st, node, now).1.Done? {
            AcceptedStamps(codec, st, node, now);
            OfferKeepsBase(codec, st, node, now);
          } else {
            RejectedStamps(codec, st, node, now);
            RejectedLeaves(codec, st, node, now);
          }
      }
      StampsHold(codec, next, events[1..]);
    }
  }

  /** No keyed record stands on the ledger twice, whatever was rejected on the way. */
  lemma {:induction false} OnceHoldsAll(codec: Codec, st: ChainState, events: seq<Event>)
    requires WindowsAreInt64(codec) && OnceInvariant(codec, st) && TriedAlong(codec, st, events)
    ensures OnceInvariant(codec, Carry(codec, st, events))
    decreases |events|
  {
    hide AddBlock, AtTip, BaseInvariant, InsideWindows, SeparatedByWindows, WindowsAreInt64;
    if events != [] {
      var next := Step(codec, st, events[0]).0;
      match events[0] {
        case Refresh(epoch) => RefreshKeepsBase(st, epoch);
        case Offer(node, now) =>
          if AddBlock(codec, st, node, now).1.Done? {
            OfferKeepsOnce(codec, st, node, now);
          } else {
            RejectedLeaves(codec, st, node, now);
          }
      }
      OnceHoldsAll(codec, next, events[1..]);
    }
  }

  // ----- conservation -----

  /** Every record that is applied conserves every token for the accounts it meets, and one that fails does so cleanly. */
  predicate AppliedConserve(codec: Codec, l: Ledger, w: World, block: Block, i: nat)
    requires i <= |block.records|
    decreases |block.records| - i
  {
    i == |block.records| ||
    var rec := block.records[i];
    var (next, s) := ProcessRecord(codec, l, w, rec, block, true);
    if s.Failed? then FailsCleanly(codec, w, rec, block)
    else
      && (codec.decode(rec).Some? ==> Conserving(w.accounts, codec.decode(rec).value))
      && AppliedConserve(codec, l, next, block, i + 1)
  }

  lemma {:induction false} AppliedTotals(codec: Codec, l: Ledger, w: World, block: Block, i: nat, t: Id)
    requires block.index != 0 && i <= |block.records| && AppliedConserve(codec, l, w, block, i)
    ensures Total(ProcessRecords(codec, l, w, block, i, true).0.accounts, t) == Total(w.accounts, t)
    decreases |block.records| - i
  {
    hide ProcessRecord, FailsCleanly, Conserving, Drift, Total;
    if i < |block.records| {
      var rec := block.records[i];
      var (next, s) := ProcessRecord(codec, l, w, rec, block, true);
      if s.Failed? {
        FailedRecordKeeps(codec, l, w, rec, block);
      } else {
        ProcessDrift(codec, l, w, rec, block, t);
        ProcessEnds(codec, l, w, rec, block);
        DriftIff(w.accounts, codec.decode(rec).value);
        AppliedTotals(codec, l, next, block, i + 1, t);
      }
    }
  }

  predicate AppliedConserveAlong(codec: Codec, st: ChainState, events: seq<Event>)
    decreases |events|
  {
    events == [] ||
    (&& (events[0].Offer? ==> AppliedConserve(codec, st.ledger, st.world, events[0].node.block, 0))
     && AppliedConserveAlong(codec, Step(codec, st, events[0]).0, events[1..]))
  }

  lemma OfferedTotals(codec: Codec, st: ChainState, node: ChainNode, now: int, t: Id)
    requires BaseInvariant(st) && node.block.index >= st.ledger.Next()
    requires AppliedConserve(codec, st.ledger, st.world, node.block, 0)
    ensures Total(AddBlock(codec, st, node, now).0.world.accounts, t) == Total(st.world.accounts, t)
  {
    hide ProcessRecords, ProcessRecord, ValidateStrict, Linked, Orderly, Rotate, AppliedConserve, Total;
    AppliedTotals(codec, st.ledger, st.world, node.block, 0, t);
  }

  /** Records that conserve every token do so in rejected blocks as well. */
  lemma {:induction false} TotalsHold(codec: Codec, st: ChainState, events: seq<Event>, t: Id)
    requires BaseInvariant(st) && TriedAlong(codec, st, events) && AppliedConserveAlong(codec, st, events)
    ensures Total(Carry(codec, st, events).world.accounts, t) == Total(st.world.accounts, t)
    decreases |events|
  {
    hide AddBlock, AtTip, BaseInvariant, AppliedConserve, Total;
    if events != [] {
      var next := Step(codec, st, events[0]).0;
      match events[0] {
        case Refresh(epoch) => RefreshKeepsBase(st, epoch);
        case Offer(node, now) =>
          OfferedTotals(codec, st, node, now, t);
          if AddBlock(codec, st, node, now).1.Done? {
            OfferKeepsBase(codec, st, node, now);
          } else {
            RejectedLeaves(codec, st, node, now);
          }
      }
      TotalsHold(codec, next, events[1..], t);
    }
  }
}
