/** Runs of a chain from its genesis block: blocks are offered one after another, stakeholders are refreshed at any
    time. The blocks of a run are at the tip and in later and later slots. */
module Runs {
  import opened Numbers
  import opened Outcomes
  import opened ChainTypes
  import opened Bank
  import opened LedgerView
  import opened TxFees
  import opened TxHandlers
  import opened TxIdempotency
  import opened BlockValidation
  import opened ChainSpec
  import Ouroboros

  datatype Event = Offer(node: ChainNode, now: int) | Refresh(epoch: nat)

  function Step(codec: Codec, st: ChainState, e: Event): (ChainState, Status) {
    match e
    case Offer(node, now) => AddBlock(codec, st, node, now)
    case Refresh(epoch) => (st.(world := RefreshStakes(st.world, epoch)), Done)
  }

  /** The state after the events, as long as they are accepted. */
  function Run(codec: Codec, st: ChainState, events: seq<Event>): (ChainState, Status)
    decreases |events|
  {
    if events == [] then (st, Done)
    else
      var (next, s) := Step(codec, st, events[0]);
      if s.Failed? then (next, s) else Run(codec, next, events[1..])
  }

  /** What the source expects of the blocks it is offered but does not check: the block goes to the tip of the
      ledger, in a later slot than the block before it, and its slot's offset is representable. */
  predicate AtTip(st: ChainState, node: ChainNode) {
    && node.block.index == st.ledger.Next()
    && Ouroboros.SlotInRange(st.world.consensus.schedule, node.block.slot)
    && (st.ledger.nodes != [] ==> node.block.slot > st.ledger.nodes[|st.ledger.nodes| - 1].block.slot)
  }

  predicate EventAtTip(st: ChainState, e: Event) {
    e.Offer? ==> AtTip(st, e.node)
  }

  /** Every event of the run is accepted, and every offered block is at the tip. */
  predicate Accepted(codec: Codec, st: ChainState, events: seq<Event>)
    decreases |events|
  {
    events == [] ||
    var (next, s) := Step(codec, st, events[0]);
    EventAtTip(st, events[0]) && s.Done? && Accepted(codec, next, events[1..])
  }

  /** A new chain: an empty ledger from block 0 and no accounts. */
  function Initial(schedule: Ouroboros.Schedule): ChainState {
    ChainState(Ledger.Ledger(0, []), World(map[], None, Ouroboros.Consensus(schedule, map[], None)), Checkpoint(0, 0))
  }

  /** `st` is the chain right after an accepted genesis block that is timed in slot 0 of its own schedule. */
  ghost predicate Booted(codec: Codec, st: ChainState, schedule: Ouroboros.Schedule, genesis: ChainNode, now: int) {
    && genesis.block.index == 0
    && AddBlock(codec, Initial(schedule), genesis, now) == (st, Done)
    && st.world.consensus.schedule.IsSet()
    && st.world.consensus.schedule.slotDuration <= INT64_MAX && 0 <= st.world.consensus.schedule.genesisTime
    && Ouroboros.ValidBlockTiming(st.world.consensus.schedule, genesis.block.timestamp, 0)
  }

  // ----- what every record keeps -----

  lemma RecordKeepsConsensus(codec: Codec, l: Ledger, w: World, rec: Record, block: Block, strict: bool)
    requires block.index != 0
    ensures var next := ProcessRecord(codec, l, w, rec, block, strict).0;
      next.consensus == w.consensus && (w.config.Some? ==> next.config.Some?)
  {
  }

  lemma {:induction false} RecordsKeepConsensus(codec: Codec, l: Ledger, w: World, block: Block, i: nat, strict: bool)
    requires block.index != 0 && i <= |block.records|
    ensures var next := ProcessRecords(codec, l, w, block, i, strict).0;
      next.consensus == w.consensus && (w.config.Some? ==> next.config.Some?)
    decreases |block.records| - i
  {
    if i < |block.records| {
      var (next, s) := ProcessRecord(codec, l, w, block.records[i], block, strict);
      RecordKeepsConsensus(codec, l, w, block.records[i], block, strict);
      if s.Done? {
        RecordsKeepConsensus(codec, l, next, block, i + 1, strict);
      }
    }
  }

  // ----- the base invariant -----

  /** Blocks are numbered by position, linked by hash, and count the transactions before them. */
  ghost predicate Linked(l: Ledger) {
    && (forall i | l.Has(i) :: l.At(i).index == i)
    && (forall i | l.start < i < l.Next() :: l.At(i).txIndex == l.At(i - 1).txIndex + |l.At(i - 1).records|)
    && (forall i | l.start < i < l.Next() :: l.At(i).previousHash == l.nodes[i - 1 - l.start].hash)
  }

  ghost predicate BaseInvariant(st: ChainState) {
    && st.ledger.start == 0 && st.ledger.nodes != []
    && st.world.config.Some?
    && Linked(st.ledger) && Orderly(st.ledger, st.world.consensus.schedule)
    && st.checkpoint.lastId <= st.checkpoint.currentId < st.ledger.Next()
    && (st.checkpoint.currentId == 0 || st.checkpoint.lastId < st.checkpoint.currentId)
  }

  /** A chain that began with its genesis block validates every further block strictly. */
  lemma AlwaysStrict(st: ChainState, node: ChainNode)
    requires BaseInvariant(st) && AtTip(st, node)
    ensures ShouldUseStrictMode(st.checkpoint, node.block.index)
  {
  }

  lemma AppendedAt(l: Ledger, node: ChainNode, i: nat)
    requires Appended(l, node).Has(i)
    ensures Appended(l, node).nodes[i - l.start] == if i == l.Next() then node else l.nodes[i - l.start]
    ensures Appended(l, node).At(i) == if i == l.Next() then node.block else l.At(i)
  {
  }

  lemma AppendKeepsLinks(l: Ledger, node: ChainNode)
    requires l.start == 0 && l.nodes != [] && Linked(l)
    requires node.block.index == l.Next() && CheckSequence(l, node.block).Done?
    ensures Linked(Appended(l, node))
  {
    var longer := Appended(l, node);
    forall i: nat | longer.Has(i)
      ensures longer.At(i).index == i
    {
      AppendedAt(l, node, i);
    }
    forall i: nat | l.start < i < longer.Next()
      ensures longer.At(i).txIndex == longer.At(i - 1).txIndex + |longer.At(i - 1).records|
      ensures longer.At(i).previousHash == longer.nodes[i - 1 - l.start].hash
    {
      AppendedAt(l, node, i);
      AppendedAt(l, node, i - 1);
    }
  }

  lemma AppendKeepsOrder(l: Ledger, c: Ouroboros.Schedule, node: ChainNode)
    requires l.start == 0 && l.nodes != [] && Orderly(l, c)
    requires Ouroboros.SlotInRange(c, node.block.slot) && Ouroboros.ValidBlockTiming(c, node.block.timestamp, node.block.slot)
    requires node.block.slot > l.nodes[|l.nodes| - 1].block.slot
    ensures Orderly(Appended(l, node), c)
  {
    var longer := Appended(l, node);
    forall i: nat | longer.Has(i)
      ensures longer.At(i) == if i == l.Next() then node.block else l.At(i)
    {
      AppendedAt(l, node, i);
    }
    forall i: nat | l.Has(i)
      ensures l.At(i).slot < node.block.slot
    {
      var last := l.Next() - 1;
      assert i < last ==> l.At(i).slot < l.At(last).slot;
    }
  }

  /** What acceptance of a normal block at the tip means. */
  lemma OfferUnfolds(codec: Codec, st: ChainState, node: ChainNode, now: int)
    requires BaseInvariant(st) && AtTip(st, node) && AddBlock(codec, st, node, now).1.Done?
    ensures CheckSequence(st.ledger, node.block).Done?
    ensures ValidateStrict(codec, st.ledger, st.world.accounts, st.world.config, st.world.consensus, st.checkpoint,
                           node.block, now).Done?
    ensures ProcessRecords(codec, st.ledger, st.world, node.block, 0, true).1.Done?
    ensures var w := ProcessRecords(codec, st.ledger, st.world, node.block, 0, true).0;
      AddBlock(codec, st, node, now).0 == ChainState(Appended(st.ledger, node), w,
        Rotate(st.ledger, w.config, st.checkpoint, node.block.index, now))
  {
    AlwaysStrict(st, node);
  }

  lemma OfferKeepsBase(codec: Codec, st: ChainState, node: ChainNode, now: int)
    requires BaseInvariant(st) && AtTip(st, node) && AddBlock(codec, st, node, now).1.Done?
    ensures BaseInvariant(AddBlock(codec, st, node, now).0)
    ensures AddBlock(codec, st, node, now).0.world.consensus == st.world.consensus
  {
    hide AddBlock;
    hide ProcessRecord;
    hide CheckSequence;
    hide Linked;
    hide Orderly;
    OfferUnfolds(codec, st, node, now);
    var w := ProcessRecords(codec, st.ledger, st.world, node.block, 0, true).0;
    assert w.consensus == st.world.consensus && w.config.Some? by {
      RecordsKeepConsensus(codec, st.ledger, st.world, node.block, 0, true);
    }
    var l := Appended(st.ledger, node);
    assert Linked(l) && Orderly(l, st.world.consensus.schedule) by {
      AppendKeepsLinks(st.ledger, node);
      AppendKeepsOrder(st.ledger, st.world.consensus.schedule, node);
    }
  }

  /** What acceptance of the genesis block means: its first record commits configuration, schedule and genesis
      account, and the other three are applied to that. */
  lemma BootUnfolds(codec: Codec, st: ChainState, schedule: Ouroboros.Schedule, genesis: ChainNode, now: int) returns (w1: World)
    requires Booted(codec, st, schedule, genesis, now)
    ensures ValidateGenesisBlock(codec, genesis).Done? && |genesis.block.records| == 4 && genesis.block.slot == 0
    ensures st.ledger == Ledger.Ledger(0, [genesis]) && st.checkpoint == Checkpoint(0, 0)
    ensures var l := Initial(schedule).ledger;
      && ProcessRecord(codec, l, Initial(schedule).world, genesis.block.records[0], genesis.block, true) == (w1, Done)
      && ProcessRecords(codec, l, w1, genesis.block, 1, true) == (st.world, Done)
    ensures codec.decode(genesis.block.records[0]).Some? && codec.decode(genesis.block.records[0]).value.TxGenesis?
    ensures var gm := codec.genesisMetaOf(codec.decode(genesis.block.records[0]).value.meta);
      && gm.Some? && w1.config == Some(gm.value.config)
      && w1.accounts == map[ID_GENESIS := Account.Account(ID_GENESIS, gm.value.genesis.wallet, 0)]
  {
    hide MinFeeForTx;
    hide ValidateGenesisRecords;
    w1 := ProcessRecord(codec, Initial(schedule).ledger, Initial(schedule).world, genesis.block.records[0], genesis.block, true).0;
  }

  /** The genesis block establishes the base invariant. */
  lemma BootEstablishesBase(codec: Codec, st: ChainState, schedule: Ouroboros.Schedule, genesis: ChainNode, now: int)
    requires Booted(codec, st, schedule, genesis, now)
    ensures BaseInvariant(st) && st.ledger.Next() == 1 && st.checkpoint == Checkpoint(0, 0)
  {
    hide ProcessRecord;
    hide ValidateGenesisBlock;
    var w1 := BootUnfolds(codec, st, schedule, genesis, now);
    RecordsKeepConfig(codec, Initial(schedule).ledger, w1, genesis.block, 1, true);
    Ouroboros.SlotStartExact(st.world.consensus.schedule, 0);
  }

  lemma {:induction false} RecordsKeepConfig(codec: Codec, l: Ledger, w: World, block: Block, i: nat, strict: bool)
    requires i <= |block.records| && w.config.Some?
    ensures ProcessRecords(codec, l, w, block, i, strict).0.config.Some?
    decreases |block.records| - i
  {
    if i < |block.records| {
      var (next, s) := ProcessRecord(codec, l, w, block.records[i], block, strict);
      if s.Done? {
        RecordsKeepConfig(codec, l, next, block, i + 1, strict);
      }
    }
  }

  lemma RefreshKeepsBase(st: ChainState, epoch: nat)
    requires BaseInvariant(st)
    ensures BaseInvariant(st.(world := RefreshStakes(st.world, epoch)))
    ensures RefreshStakes(st.world, epoch).accounts == st.world.accounts
    ensures RefreshStakes(st.world, epoch).config == st.world.config
    ensures RefreshStakes(st.world, epoch).consensus.schedule == st.world.consensus.schedule
  {
  }

  /** The base invariant holds in every state of every run. */
  lemma {:induction false} BaseHolds(codec: Codec, st: ChainState, events: seq<Event>)
    requires BaseInvariant(st) && Accepted(codec, st, events)
    ensures Run(codec, st, events).1.Done? && BaseInvariant(Run(codec, st, events).0)
    ensures Run(codec, st, events).0.world.consensus.schedule == st.world.consensus.schedule
    decreases |events|
  {
    hide AddBlock;
    hide AtTip;
    hide BaseInvariant;
    if events != [] {
      var next := Step(codec, st, events[0]).0;
      if events[0].Offer? {
        OfferKeepsBase(codec, st, events[0].node, events[0].now);
      } else {
        RefreshKeepsBase(st, events[0].epoch);
      }
      BaseHolds(codec, next, events[1..]);
    }
  }
}
