/** How the chain configuration may develop over a run: configuration records can tighten it, and nothing else touches it,
    while the slot schedule stays that of the genesis block. */
module ConfigHistory {
  import opened Numbers
  import opened Outcomes
  import opened ChainTypes
  import opened LedgerView
  import opened TxHandlers
  import opened ChainSpec
  import opened Runs

  /** Same genesis time, slots no longer, epochs no shorter. */
  predicate Tightens(before: Option<BlockChainConfig>, after: Option<BlockChainConfig>) {
    && before.Some? && after.Some?
    && after.value.genesisTime == before.value.genesisTime
    && after.value.slotDuration <= before.value.slotDuration
    && after.value.slotsPerEpoch >= before.value.slotsPerEpoch
  }

  /** A block without configuration records. */
  predicate KeepsConfig(codec: Codec, block: Block) {
    forall i | 0 <= i < |block.records| ::
      codec.decode(block.records[i]).Some? ==> !codec.decode(block.records[i]).value.TxConfig?
  }

  lemma RecordTightens(codec: Codec, l: Ledger, w: World, rec: Record, block: Block)
    requires block.index != 0 && w.config.Some?
    ensures Tightens(w.config, ProcessRecord(codec, l, w, rec, block, true).0.config)
    ensures codec.decode(rec).Some? && !codec.decode(rec).value.TxConfig? ==>
      ProcessRecord(codec, l, w, rec, block, true).0.config == w.config
  {
    hide ValidateTxSignatures, Idempotency, CheckFee;
  }

  /** Every record of a block may tighten the configuration, even when a later one is rejected. */
  lemma {:induction false} RecordsTighten(codec: Codec, l: Ledger, w: World, block: Block, i: nat)
    requires block.index != 0 && i <= |block.records| && w.config.Some?
    ensures Tightens(w.config, ProcessRecords(codec, l, w, block, i, true).0.config)
    ensures KeepsConfig(codec, block) && ProcessRecords(codec, l, w, block, i, true).1.Done? ==>
      ProcessRecords(codec, l, w, block, i, true).0.config == w.config
    decreases |block.records| - i
  {
    hide ProcessRecord;
    if i < |block.records| {
      RecordTightens(codec, l, w, block.records[i], block);
      var (next, s) := ProcessRecord(codec, l, w, block.records[i], block, true);
      if s.Done? {
        DoneDecodes(codec, l, w, block.records[i], block);
        RecordsTighten(codec, l, next, block, i + 1);
      }
    }
  }

  lemma DoneDecodes(codec: Codec, l: Ledger, w: World, rec: Record, block: Block)
    requires ProcessRecord(codec, l, w, rec, block, true).1.Done?
    ensures codec.decode(rec).Some?
  {
  }

  /** Over every run the configuration only tightens, and the slot schedule is never changed at all. */
  lemma {:induction false} ConfigTightens(codec: Codec, st: ChainState, events: seq<Event>)
    requires BaseInvariant(st) && Accepted(codec, st, events)
    ensures Tightens(st.world.config, Run(codec, st, events).0.world.config)
    ensures Run(codec, st, events).0.world.consensus.schedule == st.world.consensus.schedule
    decreases |events|
  {
    hide AddBlock, AtTip, ProcessRecords;
    if events != [] {
      var next := Step(codec, st, events[0]).0;
      if events[0].Offer? {
        var node := events[0].node;
        OfferKeepsBase(codec, st, node, events[0].now);
        OfferUnfolds(codec, st, node, events[0].now);
        TipIsNotGenesis(st, node);
        RecordsTighten(codec, st.ledger, st.world, node.block, 0);
      } else {
        RefreshKeepsBase(st, events[0].epoch);
      }
      ConfigTightens(codec, next, events[1..]);
    }
  }

  lemma TipIsNotGenesis(st: ChainState, node: ChainNode)
    requires BaseInvariant(st) && AtTip(st, node)
    ensures node.block.index != 0
  {
  }
}
