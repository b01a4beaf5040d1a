/** No idempotent record is included twice, in one block or across blocks. */
module AtMostOnce {
  import opened Numbers
  import opened Outcomes
  import opened ChainTypes
  import opened Bank
  import opened LedgerView
  import opened TxHandlers
  import opened TxIdempotency
  import opened BlockValidation
  import opened ChainSpec
  import opened Runs
  import Ouroboros

  /** Decoded validation windows are 64-bit: the source decodes them into `int64_t`. */
  ghost predicate WindowsAreInt64(codec: Codec) {
    forall rec | codec.decode(rec).Some? ::
      InInt64(IdempotencyOf(codec.decode(rec).value).1.tsMin) && InInt64(IdempotencyOf(codec.decode(rec).value).1.tsMax)
  }

  /** The slot in which the record's validation window starts, and the one in which it ends. */
  function WindowStart(codec: Codec, c: Ouroboros.Schedule, rec: Record): nat
    requires c.IsSet() && codec.decode(rec).Some?
  {
    Ouroboros.SlotFromTimestamp(c, IdempotencyOf(codec.decode(rec).value).1.tsMin)
  }

  function WindowEnd(codec: Codec, c: Ouroboros.Schedule, rec: Record): nat
    requires c.IsSet() && codec.decode(rec).Some?
  {
    Ouroboros.SlotFromTimestamp(c, IdempotencyOf(codec.decode(rec).value).1.tsMax)
  }

  /** The idempotency rules were passed against ledger `l` at `slot`, under some configuration. */
  ghost predicate RulesPassed(codec: Codec, l: Ledger, c: Ouroboros.Schedule, rec: Record, slot: nat) {
    codec.decode(rec).Some? && exists config :: RulesPassedUnder(codec, l, c, rec, slot, config)
  }

  predicate RulesPassedUnder(codec: Codec, l: Ledger, c: Ouroboros.Schedule, rec: Record, slot: nat,
                             config: Option<BlockChainConfig>)
    requires codec.decode(rec).Some?
  {
    var (wallet, w) := IdempotencyOf(codec.decode(rec).value);
    ValidateIdempotencyRules(codec, l, c, config, wallet, w, slot, true).Done?
  }

  predicate DecodesOrdinary(codec: Codec, rec: Record) {
    codec.decode(rec).Some? && !codec.decode(rec).value.TxGenesis?
  }

  lemma RecordPassesRules(codec: Codec, l: Ledger, w: World, rec: Record, block: Block)
    requires ProcessRecord(codec, l, w, rec, block, true).1.Done?
    ensures KeyOf(codec, rec).Some? ==> RulesPassed(codec, l, w.consensus.schedule, rec, block.slot)
    ensures DecodesOrdinary(codec, rec) ==> ProcessRecord(codec, l, w, rec, block, true).0.consensus == w.consensus
    ensures block.index != 0 ==> DecodesOrdinary(codec, rec)
  {
    if codec.decode(rec).Some? {
      var valid := RulesPassedUnder(codec, l, w.consensus.schedule, rec, block.slot, w.config);
    }
  }

  lemma {:induction false} RecordsPassRules(codec: Codec, l: Ledger, w: World, block: Block, i: nat)
    requires i <= |block.records| && ProcessRecords(codec, l, w, block, i, true).1.Done?
    requires block.index != 0 || forall j | i <= j < |block.records| :: DecodesOrdinary(codec, block.records[j])
    ensures forall j | i <= j < |block.records| && KeyOf(codec, block.records[j]).Some? ::
      RulesPassed(codec, l, w.consensus.schedule, block.records[j], block.slot)
    ensures ProcessRecords(codec, l, w, block, i, true).0.consensus == w.consensus
    decreases |block.records| - i
  {
    hide ProcessRecord;
    hide RulesPassed;
    if i < |block.records| {
      RecordPassesRules(codec, l, w, block.records[i], block);
      RecordsPassRules(codec, l, ProcessRecord(codec, l, w, block.records[i], block, true).0, block, i + 1);
    }
  }

  /** What passing the rules says about a record with a key. */
  lemma PassedMeaning(codec: Codec, l: Ledger, c: Ouroboros.Schedule, rec: Record, slot: nat)
    requires WindowsAreInt64(codec) && Orderly(l, c) && KeyOf(codec, rec).Some?
    requires RulesPassed(codec, l, c, rec, slot)
    ensures WindowStart(codec, c, rec) <= slot <= WindowEnd(codec, c, rec)
    ensures forall i | l.Has(i) && HasKey(codec, l.At(i).records, KeyOf(codec, rec).value) ::
      l.At(i).slot < WindowStart(codec, c, rec) || slot <= l.At(i).slot
  {
    var (wallet, w) := IdempotencyOf(codec.decode(rec).value);
    var config :| RulesPassedUnder(codec, l, c, rec, slot, config);
    RulesMeaning(codec, l, c, config, wallet, w, slot);
  }

  // ----- the invariant -----

  /** Every keyed record lies inside its window. */
  ghost predicate InsideWindows(codec: Codec, l: Ledger, c: Ouroboros.Schedule)
    requires c.IsSet()
  {
    forall j, b | l.Has(j) && 0 <= b < |l.At(j).records| && KeyOf(codec, l.At(j).records[b]).Some? ::
      WindowStart(codec, c, l.At(j).records[b]) <= l.At(j).slot <= WindowEnd(codec, c, l.At(j).records[b])
  }

  /** An earlier block with a later record's key lies before the later record's window. */
  ghost predicate SeparatedByWindows(codec: Codec, l: Ledger, c: Ouroboros.Schedule)
    requires c.IsSet()
  {
    forall i, j, b | l.start <= i < j < l.Next() && 0 <= b < |l.At(j).records| && KeyOf(codec, l.At(j).records[b]).Some? ::
      HasKey(codec, l.At(i).records, KeyOf(codec, l.At(j).records[b]).value) ==>
        l.At(i).slot < WindowStart(codec, c, l.At(j).records[b])
  }

  ghost predicate OnceInvariant(codec: Codec, st: ChainState) {
    && BaseInvariant(st)
    && InsideWindows(codec, st.ledger, st.world.consensus.schedule)
    && SeparatedByWindows(codec, st.ledger, st.world.consensus.schedule)
    && (forall j | 0 < j < st.ledger.Next() :: KeysDistinct(codec, st.ledger.At(j).records))
  }

  lemma AppendKeepsOnce(codec: Codec, l: Ledger, c: Ouroboros.Schedule, node: ChainNode)
    requires WindowsAreInt64(codec) && Orderly(l, c)
    requires InsideWindows(codec, l, c) && SeparatedByWindows(codec, l, c)
    requires forall i | l.Has(i) :: l.At(i).slot < node.block.slot
    requires forall b | 0 <= b < |node.block.records| && KeyOf(codec, node.block.records[b]).Some? ::
      RulesPassed(codec, l, c, node.block.records[b], node.block.slot)
    ensures InsideWindows(codec, Appended(l, node), c) && SeparatedByWindows(codec, Appended(l, node), c)
  {
    var longer := Appended(l, node);
    forall i: nat | longer.Has(i)
      ensures longer.At(i) == if i == l.Next() then node.block else l.At(i)
    {
      AppendedAt(l, node, i);
    }
    forall b | 0 <= b < |node.block.records| && KeyOf(codec, node.block.records[b]).Some?
      ensures WindowStart(codec, c, node.block.records[b]) <= node.block.slot <= WindowEnd(codec, c, node.block.records[b])
      ensures forall i | l.Has(i) && HasKey(codec, l.At(i).records, KeyOf(codec, node.block.records[b]).value) ::
        l.At(i).slot < WindowStart(codec, c, node.block.records[b])
    {
      PassedMeaning(codec, l, c, node.block.records[b], node.block.slot);
    }
  }

  lemma TipIsLatest(l: Ledger, c: Ouroboros.Schedule)
    requires l.start == 0 && Orderly(l, c)
    ensures forall i | l.Has(i) :: l.At(i).slot <= l.nodes[|l.nodes| - 1].block.slot
  {
    forall i: nat | l.Has(i)
      ensures l.At(i).slot <= l.nodes[|l.nodes| - 1].block.slot
    {
      var last := l.Next() - 1;
      assert i < last ==> l.At(i).slot < l.At(last).slot;
    }
  }

  lemma StrictBlocksHaveDistinctKeys(codec: Codec, st: ChainState, node: ChainNode, now: int)
    requires ValidateStrict(codec, st.ledger, st.world.accounts, st.world.config, st.world.consensus, st.checkpoint,
                            node.block, now).Done?
    ensures KeysDistinct(codec, node.block.records)
  {
  }

  lemma AppendKeepsDistinct(codec: Codec, l: Ledger, node: ChainNode)
    requires KeysDistinct(codec, node.block.records)
    requires forall j | 0 < j < l.Next() && l.Has(j) :: KeysDistinct(codec, l.At(j).records)
    ensures forall j | 0 < j < Appended(l, node).Next() && Appended(l, node).Has(j) ::
      KeysDistinct(codec, Appended(l, node).At(j).records)
  {
    forall j: nat | 0 < j < Appended(l, node).Next() && Appended(l, node).Has(j)
      ensures KeysDistinct(codec, Appended(l, node).At(j).records)
    {
      AppendedAt(l, node, j);
    }
  }

  lemma OfferKeepsOnce(codec: Codec, st: ChainState, node: ChainNode, now: int)
    requires WindowsAreInt64(codec) && OnceInvariant(codec, st) && AtTip(st, node)
    requires AddBlock(codec, st, node, now).1.Done?
    ensures OnceInvariant(codec, AddBlock(codec, st, node, now).0)
  {
    hide AddBlock;
    hide ProcessRecords;
    hide ValidateStrict;
    hide CheckSequence;
    hide Rotate;
    hide RulesPassed;
    hide Orderly;
    hide Linked;
    hide InsideWindows;
    hide SeparatedByWindows;
    hide KeysDistinct;
    hide WindowsAreInt64;
    OfferKeepsBase(codec, st, node, now);
    OfferUnfolds(codec, st, node, now);
    var l, c := st.ledger, st.world.consensus.schedule;
    StrictBlocksHaveDistinctKeys(codec, st, node, now);
    RecordsPassRules(codec, l, st.world, node.block, 0);
    TipIsLatest(l, c);
    AppendKeepsOnce(codec, l, c, node);
    AppendKeepsDistinct(codec, l, node);
  }

  lemma BootEstablishesOnce(codec: Codec, st: ChainState, schedule: Ouroboros.Schedule, genesis: ChainNode, now: int)
    requires WindowsAreInt64(codec) && Booted(codec, st, schedule, genesis, now)
    ensures OnceInvariant(codec, st)
  {
    hide ProcessRecord;
    hide ValidateGenesisBlock;
    hide RulesPassed;
    BootEstablishesBase(codec, st, schedule, genesis, now);
    var start := Initial(schedule);
    var w1 := BootUnfolds(codec, st, schedule, genesis, now);
    GenesisRecordsAreOrdinary(codec, genesis);
    RecordsPassRules(codec, start.ledger, w1, genesis.block, 1);
    AppendKeepsOnce(codec, start.ledger, w1.consensus.schedule, genesis);
  }

  lemma GenesisRecordsAreOrdinary(codec: Codec, genesis: ChainNode)
    requires ValidateGenesisBlock(codec, genesis).Done?
    ensures |genesis.block.records| == 4 && KeyOf(codec, genesis.block.records[0]).None?
    ensures forall j | 1 <= j < 4 :: DecodesOrdinary(codec, genesis.block.records[j])
  {
  }

  lemma {:induction false} OnceHolds(codec: Codec, st: ChainState, events: seq<Event>)
    requires WindowsAreInt64(codec) && OnceInvariant(codec, st) && Accepted(codec, st, events)
    ensures OnceInvariant(codec, Run(codec, st, events).0)
    decreases |events|
  {
    if events != [] {
      hide AddBlock;
      hide OnceInvariant;
      var next := Step(codec, st, events[0]).0;
      if events[0].Offer? {
        OfferKeepsOnce(codec, st, events[0].node, events[0].now);
      }
      OnceHolds(codec, next, events[1..]);
    }
  }

  // ----- the consequence -----

  /** On a chain that grew from its genesis block by accepted blocks, no record with an idempotency key stands at two
      places, except possibly twice inside the genesis block itself. */
  lemma NoRecordTwice(codec: Codec, st: ChainState, i: nat, a: nat, j: nat, b: nat)
    requires OnceInvariant(codec, st) && i <= j && st.ledger.Has(i) && st.ledger.Has(j) && 0 < j
    requires a < |st.ledger.At(i).records| && b < |st.ledger.At(j).records|
    requires st.ledger.At(i).records[a] == st.ledger.At(j).records[b]
    requires KeyOf(codec, st.ledger.At(j).records[b]).Some?
    ensures i == j && a == b
  {
    assert HasKey(codec, st.ledger.At(i).records, KeyOf(codec, st.ledger.At(j).records[b]).value);
    assert KeyOf(codec, st.ledger.At(i).records[a]) == KeyOf(codec, st.ledger.At(j).records[b]);
  }
}
