/** A node that starts with an empty ledger at a checkpoint of the running chain and takes the chain's blocks one after another, as
    a miner does that fetches them from a beacon. It validates loosely until its own pair of checkpoints rotates, and strictly from
    then on. */
module FreshJoiner {
  import opened Numbers
  import opened Outcomes
  import opened ChainTypes
  import opened Bank
  import opened LedgerView
  import opened TxHandlers
  import opened TxIdempotency
  import opened BlockValidation
  import opened ChainSpec
  import opened Runs
  import opened CheckpointSafety
  import opened LateJoiner
  import opened CheckpointSync
  import opened SyncGuards
  import Reload
  import ConfigHistory
  import Ouroboros

  // ----- one block -----

  /** The joiner holds the running chain's blocks from its start on, and the accounts these have told it of. */
  ghost predicate Beside(k: Knowledge, joiner: ChainState, st: ChainState, start: nat) {
    && InPace(k, joiner, st, start) && StillSimulates(joiner.world.accounts, st.world.accounts, start)
    && SuffixOf(joiner.ledger, st.ledger)
  }

  /** The pair of checkpoints has not rotated yet. */
  predicate Loose(joiner: ChainState, start: nat) {
    start > 0 && joiner.checkpoint == Checkpoint(start, start)
  }

  lemma SameSequence(st: ChainState, node: ChainNode, joiner: Ledger)
    requires BaseInvariant(st) && AtTip(st, node) && CheckSequence(st.ledger, node.block).Done? && SuffixOf(joiner, st.ledger)
    ensures CheckSequence(joiner, node.block).Done? && joiner.Next() == st.ledger.Next()
  {
    if node.block.index > joiner.start {
      var i := node.block.index - 1;
      assert joiner.nodes[i - joiner.start] == st.ledger.nodes[i];
    }
  }

  lemma SuffixGrows(joiner: Ledger, full: Ledger, node: ChainNode)
    requires SuffixOf(joiner, full)
    ensures SuffixOf(Appended(joiner, node), Appended(full, node))
    ensures forall id: nat | joiner.start <= id && full.Has(id) :: ReadBlock(joiner, id) == ReadBlock(full, id)
  {
  }

  lemma LooseAdd(codec: Codec, joiner: ChainState, node: ChainNode, now: int, start: nat)
    requires Loose(joiner, start) && node.block.index != 0
    requires CheckSequence(joiner.ledger, node.block).Done? && codec.hashOf(node.block) == node.hash
    ensures var (w, s) := ProcessRecords(codec, joiner.ledger, joiner.world, node.block, 0, false);
      var (next, r) := AddBlock(codec, joiner, node, now);
      && (r.Done? <==> s.Done?)
      && (r.Done? ==> next == ChainState(Appended(joiner.ledger, node), w, Rotate(joiner.ledger, w.config, joiner.checkpoint, node.block.index, now)))
  {
    hide ProcessRecords, CheckSequence, Rotate;
    var s := ProcessRecords(codec, joiner.ledger, joiner.world, node.block, 0, false).1;
    assert s.Done? || s.Failed?;
  }

  /** The next block of the running chain, offered to a joiner in its loose phase: it is taken if and only if its records are
      applicable to what the joiner knows, and the joiner stays beside the running chain. Its pair of checkpoints rotates if and only
      if it has a configuration by then and the configuration's block count and age are reached. */
  lemma FreshStepIff(codec: Codec, k: Knowledge, st: ChainState, node: ChainNode, appliedAt: int, joiner: ChainState, now: int, start: nat)
    requires BaseInvariant(st) && AtTip(st, node) && AddBlock(codec, st, node, appliedAt).1.Done? && start <= st.ledger.Next()
    requires Beside(k, joiner, st, start) && Loose(joiner, start) && KeepsFeeAccount(codec, node.block.records)
    ensures var (next, s) := AddBlock(codec, joiner, node, now);
      && (s.Done? <==> BlockApplicable(codec, st.ledger, st.world, node.block, 0, k))
      && (s.Done? ==>
           && Beside(LearnedFrom(codec, node.block.records, 0, k), next, AddBlock(codec, st, node, appliedAt).0, start)
           && next.world.consensus == joiner.world.consensus
           && next.checkpoint ==
                if next.world.config.Some? && node.block.index > start &&
                   NeedsCheckpoint(next.world.config.value, joiner.checkpoint, node.block.index, BlockAge(joiner.ledger, start, now))
                then Checkpoint(start, node.block.index) else Checkpoint(start, start))
  {
    hide AddBlock, ProcessRecords, BlockApplicable, LearnedFrom, CheckSequence, KeepsFeeAccount, Linked, Orderly, Tracks, KnownSince,
      StillSimulates, NeedsCheckpoint, ValidateStrict;
    OfferUnfolds(codec, st, node, appliedAt);
    OfferKeepsBase(codec, st, node, appliedAt);
    IndexPositive(st, node);
    SameSequence(st, node, joiner.ledger);
    Reload.HashHeld(codec, st, node, appliedAt);
    SuffixGrows(joiner.ledger, st.ledger, node);
    LooseAdd(codec, joiner, node, now, start);
    BlockFollowsIff(codec, k, joiner.ledger, st.ledger, joiner.world, st.world, node.block, 0, start);
    RecordsKeepConsensus(codec, joiner.ledger, joiner.world, node.block, 0, false);
    if ProcessRecords(codec, joiner.ledger, joiner.world, node.block, 0, false).1.Done? {
      BlockSimulates(codec, joiner.ledger, st.ledger, joiner.world, st.world, node.block, 0, start);
    }
  }

  // ----- the loose phase -----

  /** The joiner takes the blocks of a run, each at its own time. */
  function Take(codec: Codec, joiner: ChainState, events: seq<Event>, clock: nat -> int): (ChainState, Status)
    decreases |events|
  {
    if events == [] then (joiner, Done)
    else
      match events[0]
      case Refresh(_) => Take(codec, joiner, events[1..], clock)
      case Offer(node, _) =>
        var (next, s) := AddBlock(codec, joiner, node, clock(node.block.index));
        if s.Failed? then (next, s) else Take(codec, next, events[1..], clock)
  }

  /** The joiner's pair of checkpoints does not rotate on the way. */
  predicate StaysLoose(codec: Codec, joiner: ChainState, events: seq<Event>, clock: nat -> int, start: nat)
    decreases |events|
  {
    Loose(joiner, start) &&
    (events == [] ||
     match events[0]
     case Refresh(_) => StaysLoose(codec, joiner, events[1..], clock, start)
     case Offer(node, _) =>
       var (next, s) := AddBlock(codec, joiner, node, clock(node.block.index));
       s.Done? ==> StaysLoose(codec, next, events[1..], clock, start))
  }

  /** No block from `start` on ends the fee account. */
  predicate FeeAccountStays(codec: Codec, events: seq<Event>, start: nat) {
    forall i | 0 <= i < |events| && events[i].Offer? && events[i].node.block.index >= start ::
      KeepsFeeAccount(codec, events[i].node.block.records)
  }

  /** As long as its pair of checkpoints does not rotate, the joiner takes all blocks of the run if and only if they are applicable one
      after another, and ends beside the running chain. */
  lemma {:induction false} TakeIff(codec: Codec, k: Knowledge, st: ChainState, events: seq<Event>, joiner: ChainState, clock: nat -> int, start: nat)
      returns (learned: Knowledge)
    requires BaseInvariant(st) && Accepted(codec, st, events) && start <= st.ledger.Next() && FeeAccountStays(codec, events, start)
    requires Beside(k, joiner, st, start) && StaysLoose(codec, joiner, events, clock, start)
    ensures Take(codec, joiner, events, clock).1.Done? <==> RunApplicable(codec, st, events, k)
    ensures Take(codec, joiner, events, clock).1.Done? ==>
      Beside(learned, Take(codec, joiner, events, clock).0, Run(codec, st, events).0, start)
    decreases |events|
  {
    hide AddBlock, BaseInvariant, AtTip, Beside, BlockApplicable, LearnedFrom, RefreshStakes, KeepsFeeAccount, NeedsCheckpoint;
    learned := k;
    if events != [] {
      var after := Step(codec, st, events[0]).0;
      assert FeeAccountStays(codec, events[1..], start) by {
        assert forall i | 0 <= i < |events[1..]| :: events[1..][i] == events[i + 1];
      }
      match events[0] {
        case Refresh(epoch) =>
          RefreshKeepsBase(st, epoch);
          RefreshedBeside(k, joiner, st, epoch, start);
          learned := TakeIff(codec, k, after, events[1..], joiner, clock, start);
        case Offer(node, at) =>
          OfferKeepsBase(codec, st, node, at);
          OfferAppends(codec, st, node, at);
          TipNotBelow(st, node, start);
          FreshStepIff(codec, k, st, node, at, joiner, clock(node.block.index), start);
          var next := AddBlock(codec, joiner, node, clock(node.block.index));
          if next.1.Done? {
            learned := TakeIff(codec, LearnedFrom(codec, node.block.records, 0, k), after, events[1..], next.0, clock, start);
          }
      }
    }
  }

  lemma TipNotBelow(st: ChainState, node: ChainNode, start: nat)
    requires AtTip(st, node) && start <= st.ledger.Next()
    ensures node.block.index >= start
  {
  }

  lemma RefreshedBeside(k: Knowledge, joiner: ChainState, st: ChainState, epoch: nat, start: nat)
    requires Beside(k, joiner, st, start)
    ensures Beside(k, joiner, st.(world := RefreshStakes(st.world, epoch)), start)
    ensures RefreshStakes(st.world, epoch).accounts == st.world.accounts
  {
    hide Tracks, KnownSince, StillSimulates;
  }

  // ----- without a configuration -----

  /** No block from `start` on sets the configuration. */
  predicate NeverConfigured(codec: Codec, events: seq<Event>, start: nat) {
    forall i | 0 <= i < |events| && events[i].Offer? && events[i].node.block.index >= start ::
      ConfigHistory.KeepsConfig(codec, events[i].node.block)
  }

  lemma {:induction false} StaysUnconfigured(codec: Codec, l: Ledger, w: World, block: Block, i: nat)
    requires block.index != 0 && i <= |block.records| && ConfigHistory.KeepsConfig(codec, block) && w.config.None?
    ensures ProcessRecords(codec, l, w, block, i, false).0.config.None?
    decreases |block.records| - i
  {
    hide ValidateTxSignatures, Handle, Idempotency;
    if i < |block.records| {
      var (next, s) := ProcessRecord(codec, l, w, block.records[i], block, false);
      if s.Done? {
        StaysUnconfigured(codec, l, next, block, i + 1);
      }
    }
  }

  /** Without a configuration the pair of checkpoints never rotates: the joiner validates loosely for ever. */
  lemma {:induction false} UnconfiguredStaysLoose(codec: Codec, k: Knowledge, st: ChainState, events: seq<Event>, joiner: ChainState,
                                                  clock: nat -> int, start: nat)
    requires BaseInvariant(st) && Accepted(codec, st, events) && start <= st.ledger.Next() && FeeAccountStays(codec, events, start)
    requires Beside(k, joiner, st, start) && Loose(joiner, start) && joiner.world.config.None? && NeverConfigured(codec, events, start)
    ensures StaysLoose(codec, joiner, events, clock, start)
    decreases |events|
  {
    hide AddBlock, BaseInvariant, AtTip, Beside, BlockApplicable, LearnedFrom, RefreshStakes, KeepsFeeAccount, NeedsCheckpoint,
      ConfigHistory.KeepsConfig, ProcessRecords;
    if events != [] {
      var after := Step(codec, st, events[0]).0;
      assert FeeAccountStays(codec, events[1..], start) && NeverConfigured(codec, events[1..], start) by {
        assert forall i | 0 <= i < |events[1..]| :: events[1..][i] == events[i + 1];
      }
      match events[0] {
        case Refresh(epoch) =>
          RefreshKeepsBase(st, epoch);
          RefreshedBeside(k, joiner, st, epoch, start);
          UnconfiguredStaysLoose(codec, k, after, events[1..], joiner, clock, start);
        case Offer(node, at) =>
          OfferKeepsBase(codec, st, node, at);
          OfferAppends(codec, st, node, at);
          TipNotBelow(st, node, start);
          FreshStepIff(codec, k, st, node, at, joiner, clock(node.block.index), start);
          var next := AddBlock(codec, joiner, node, clock(node.block.index));
          if next.1.Done? {
            AddedUnconfigured(codec, st, joiner, node, clock(node.block.index));
            UnconfiguredStaysLoose(codec, LearnedFrom(codec, node.block.records, 0, k), after, events[1..], next.0, clock, start);
          }
      }
    }
  }

  lemma AddedUnconfigured(codec: Codec, st: ChainState, joiner: ChainState, node: ChainNode, now: int)
    requires BaseInvariant(st) && AtTip(st, node) && ConfigHistory.KeepsConfig(codec, node.block) && joiner.world.config.None?
    requires AddBlock(codec, joiner, node, now).1.Done? && joiner.checkpoint.currentId == joiner.checkpoint.lastId > 0
    ensures AddBlock(codec, joiner, node, now).0.world.config.None?
  {
    hide ProcessRecords, ValidateBlock, Linked, Orderly, ConfigHistory.KeepsConfig;
    IndexPositive(st, node);
    StaysUnconfigured(codec, joiner.ledger, joiner.world, node.block, 0);
  }

  // ----- from the last checkpoint -----

  /** A node without accounts, configuration or blocks, told to start at a block. */
  predicate Fresh(joiner: ChainState, start: nat) {
    && joiner.ledger == Ledger.Ledger(start, []) && joiner.world.accounts == map[] && joiner.world.config.None?
    && joiner.checkpoint == Checkpoint(start, start)
  }

  /** Loading from its empty ledger makes a fresh node of any. */
  lemma EmptyLoadIsFresh(codec: Codec, joiner: ChainState, start: nat, now: int)
    requires joiner.ledger == Ledger.Ledger(start, []) && joiner.world.config.None?
    ensures LoadFromLedger(codec, joiner, start, now).1.Done? && Fresh(LoadFromLedger(codec, joiner, start, now).0, start)
  {
  }

  lemma FreshIsBeside(joiner: ChainState, st: ChainState, start: nat)
    requires Fresh(joiner, start) && start == st.ledger.Next() && st.ledger.start == 0 && st.world.config.Some?
    requires OwnIds(st.world.accounts) && forall id | id in st.world.accounts :: st.world.accounts[id].blockId < start
    ensures Beside(Knowledge({}, 0, false), joiner, st, start)
  {
    IdsOwned(st.world.accounts);
  }

  /** A fresh node at the last checkpoint of a running chain without later configuration records: it takes all the blocks from
      there on, whatever its clock says, if and only if they are applicable one after another to a node that knows nothing yet. Then
      it holds the accounts of the running chain and its blocks, but it has never come to validate strictly. */
  lemma FreshJoinIff(codec: Codec, boot: ChainState, events: seq<Event>, joiner: ChainState, clock: nat -> int) returns (k: nat)
    requires CheckpointInvariant(boot) && boot.ledger.Next() == 1 && OwnIds(boot.world.accounts)
    requires Accepted(codec, boot, events) && RotatesSafelyAlong(codec, boot, events)
    requires Run(codec, boot, events).0.checkpoint.lastId > 0 && Fresh(joiner, Run(codec, boot, events).0.checkpoint.lastId)
    requires var start := Run(codec, boot, events).0.checkpoint.lastId; FeeAccountStays(codec, events, start) && NeverConfigured(codec, events, start)
    ensures k <= |events|
    ensures var full, middle := Run(codec, boot, events).0, Run(codec, boot, events[..k]).0;
      var (taken, s) := Take(codec, joiner, events[k..], clock);
      && middle.ledger.Next() == full.checkpoint.lastId
      && (s.Done? <==> RunApplicable(codec, middle, events[k..], Knowledge({}, 0, false)))
      && (s.Done? ==>
            && Synchronized(taken.world.accounts, full.world.accounts) && SuffixOf(taken.ledger, full.ledger)
            && taken.checkpoint == joiner.checkpoint)
  {
    hide AddBlock, AtTip, RotatesSafely, KeepsFeeAccount, RunApplicable, Beside, Synchronized, OwnIds, Linked, Orderly,
      ConfigHistory.KeepsConfig, StillSimulates;
    var full := Run(codec, boot, events).0;
    var start := full.checkpoint.lastId;
    CheckpointHolds(codec, boot, events);
    k := PointOfBlock(codec, boot, events, start);
    RunSplits(codec, boot, events, k);
    RotationsSplit(codec, boot, events, k);
    CheckpointHolds(codec, boot, events[..k]);
    BaseHolds(codec, boot, events[..k]);
    RunKeepsIds(codec, boot, events[..k]);
    var middle := Run(codec, boot, events[..k]).0;
    assert FeeAccountStays(codec, events[k..], start) && NeverConfigured(codec, events[k..], start) by {
      assert forall i | 0 <= i < |events[k..]| :: events[k..][i] == events[k + i];
    }
    FreshIsBeside(joiner, middle, start);
    UnconfiguredStaysLoose(codec, Knowledge({}, 0, false), middle, events[k..], joiner, clock, start);
    var learned := TakeIff(codec, Knowledge({}, 0, false), middle, events[k..], joiner, clock, start);
    var taken := Take(codec, joiner, events[k..], clock);
    if taken.1.Done? {
      BesideMeans(learned, taken.0, full, start);
      SimulationAtCheckpoint(taken.0.world.accounts, full.world.accounts, start);
      TakenStaysLoose(codec, joiner, events[k..], clock, start);
    }
  }

  lemma BesideMeans(k: Knowledge, joiner: ChainState, st: ChainState, start: nat)
    requires Beside(k, joiner, st, start)
    ensures StillSimulates(joiner.world.accounts, st.world.accounts, start) && SuffixOf(joiner.ledger, st.ledger)
  {
  }

  lemma {:induction false} TakenStaysLoose(codec: Codec, joiner: ChainState, events: seq<Event>, clock: nat -> int, start: nat)
    requires StaysLoose(codec, joiner, events, clock, start) && Take(codec, joiner, events, clock).1.Done?
    ensures Loose(Take(codec, joiner, events, clock).0, start)
    decreases |events|
  {
    hide AddBlock, Loose;
    if events != [] {
      match events[0] {
        case Refresh(_) => TakenStaysLoose(codec, joiner, events[1..], clock, start);
        case Offer(node, _) =>
          TakenStaysLoose(codec, AddBlock(codec, joiner, node, clock(node.block.index)).0, events[1..], clock, start);
      }
    }
  }

  // ----- the strict phase -----

  /** Once its pair has rotated, a joiner whose slot schedule has never been set takes no block from there on: only a genesis block
      sets it. */
  lemma UnsetScheduleStops(codec: Codec, joiner: ChainState, node: ChainNode, now: int)
    requires joiner.checkpoint.lastId < joiner.checkpoint.currentId <= node.block.index && !joiner.world.consensus.schedule.IsSet()
    ensures AddBlock(codec, joiner, node, now).1.Failed? && AddBlock(codec, joiner, node, now).0 == joiner
  {
    hide CheckSequence;
  }

  /** The joiner's search for a timestamp finds the running chain's block, or its own first one. */
  lemma FoundBeside(joiner: Ledger, full: Ledger, timestamp: int)
    requires SuffixOf(joiner, full) && TimestampsIncrease(full) && joiner.nodes != []
    ensures var found, own := FindBlockByTimestamp(full, timestamp), FindBlockByTimestamp(joiner, timestamp);
      && (found.None? ==> own.None?)
      && (found.Some? && found.value >= joiner.start ==> own == found)
      && (found.Some? && found.value < joiner.start ==> own == Some(joiner.start))
  {
    hide FindBlockByTimestamp, TimestampsIncrease;
    SuffixBlocks(joiner, full);
    FindsFirst(full, timestamp);
    FindsFirst(joiner, timestamp);
    var found, own := FindBlockByTimestamp(full, timestamp), FindBlockByTimestamp(joiner, timestamp);
    if found.Some? && found.value < joiner.start {
      assert joiner.Has(joiner.start);
      LaterStays(full, found.value, joiner.start, timestamp);
    }
    if found.Some? && found.value >= joiner.start {
      assert joiner.Has(found.value) && joiner.At(found.value).timestamp >= timestamp;
    }
  }

  lemma LaterStays(l: Ledger, i: nat, j: nat, timestamp: int)
    requires TimestampsIncrease(l) && l.Has(i) && l.Has(j) && i <= j && l.At(i).timestamp >= timestamp
    ensures l.At(j).timestamp >= timestamp
  {
  }

  lemma SuffixBlocks(joiner: Ledger, full: Ledger)
    requires SuffixOf(joiner, full) && TimestampsIncrease(full)
    ensures TimestampsIncrease(joiner) && joiner.Next() == full.Next()
    ensures forall i: nat | joiner.Has(i) :: full.Has(i) && joiner.At(i) == full.At(i)
  {
    assert forall i: nat | joiner.Has(i) :: joiner.nodes[i - joiner.start] == full.nodes[i];
    assert forall i: nat | joiner.Has(i) :: joiner.At(i) == full.At(i);
  }

  /** The renewal deadline is the running chain's, or it lies at or before the joiner's start. */
  lemma DeadlineBeside(joiner: ChainState, st: ChainState, index: nat, now: int)
    requires BaseInvariant(st) && SuffixOf(joiner.ledger, st.ledger) && joiner.ledger.nodes != [] && joiner.world.config == st.world.config
    ensures var own := MaxBlockIdForRenewal(joiner.ledger, joiner.world.config, joiner.checkpoint, index, now);
      var full := MaxBlockIdForRenewal(st.ledger, st.world.config, st.checkpoint, index, now);
      own.Ok? && full.Ok? && (own.value == full.value || own.value <= joiner.ledger.start)
  {
    hide FindBlockByTimestamp, Linked, Orderly;
    LedgerOrdered(st);
    SuffixBlocks(joiner.ledger, st.ledger);
    var minAge := st.world.config.value.checkpoint.minAgeSeconds;
    FoundBeside(joiner.ledger, st.ledger, now - ToInt64(minAge));
  }

  lemma LedgerOrdered(st: ChainState)
    requires BaseInvariant(st)
    ensures TimestampsIncrease(st.ledger) && forall i: nat | st.ledger.Has(i) :: st.ledger.At(i).index == i
  {
    OrderlyTimestamps(st.ledger, st.world.consensus.schedule);
  }

  /** After the switch the joiner validates what the running chain has just accepted, at the same time and on the same schedule: the
      block passes if and only if the joiner's own stakes make its leader the leader and each renewal or ending is of an account the
      joiner knows and is old enough for the joiner's deadline. Sequence, timing, limit, keys and the completeness of the renewals
      come with the running chain's acceptance. */
  lemma SwitchIff(codec: Codec, k: Knowledge, st: ChainState, node: ChainNode, joiner: ChainState, now: int, start: nat)
    requires BaseInvariant(st) && AtTip(st, node) && AddBlock(codec, st, node, now).1.Done?
    requires Beside(k, joiner, st, start) && joiner.ledger.nodes != [] && joiner.world.config == st.world.config
    requires joiner.checkpoint.lastId < joiner.checkpoint.currentId <= node.block.index
    requires joiner.world.consensus.schedule == st.world.consensus.schedule
    ensures joiner.world.consensus.schedule.IsSet() && ShouldUseStrictMode(joiner.checkpoint, node.block.index)
    ensures var own := MaxBlockIdForRenewal(joiner.ledger, joiner.world.config, joiner.checkpoint, node.block.index, now);
      own.Ok? &&
      (ValidateBlock(codec, joiner, node, true, now).Done? <==>
         && ValidLeader(codec, joiner.world.consensus, node.block)
         && forall i | 0 <= i < |node.block.records| :: RenewalAllowed(codec, joiner.world.accounts, own.value, node.block.records[i]))
  {
    hide AddBlock, ProcessRecords, CheckSequence, Linked, Orderly, Tracks, StillSimulates, ValidLeader, RenewalAllowed, MaxBlockIdForRenewal,
      WithinLimit, KeysDistinct, RenewedIn;
    OfferUnfolds(codec, st, node, now);
    IndexPositive(st, node);
    SameSequence(st, node, joiner.ledger);
    Reload.HashHeld(codec, st, node, now);
    DeadlineBeside(joiner, st, node.block.index, now);
    CoverageFollows(k, joiner, st, start,
      MaxBlockIdForRenewal(joiner.ledger, joiner.world.config, joiner.checkpoint, node.block.index, now).value,
      MaxBlockIdForRenewal(st.ledger, st.world.config, st.checkpoint, node.block.index, now).value);
  }

  /** What the joiner must see renewed is among what the running chain must see renewed. */
  lemma CoverageFollows(k: Knowledge, joiner: ChainState, st: ChainState, start: nat, own: nat, full: nat)
    requires Beside(k, joiner, st, start) && (own == full || own <= start)
    ensures own > 0 ==> IdsBefore(joiner.world.accounts, own) == {} || (own == full && IdsBefore(joiner.world.accounts, own) <= IdsBefore(st.world.accounts, full))
  {
    var l, f := joiner.world.accounts, st.world.accounts;
    forall id | id in l
      ensures id in f && l[id].blockId == f[id].blockId && l[id].blockId >= start
    {
      assert AgreeOn(id, l[id], f[id]);
    }
  }
}
