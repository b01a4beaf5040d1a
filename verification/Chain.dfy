/** The chain object: blocks are validated and their records applied to the bank in place. */
module Chains {
  import opened Numbers
  import opened Outcomes
  import opened ChainTypes
  import opened Bank
  import opened AccountBuffers
  import opened LedgerView
  import opened TxHandlers
  import opened TxHandlerMethods
  import opened TxIdempotency
  import opened TxSignatures
  import opened BlockValidation
  import opened ChainSpec
  import Ouroboros

  class Chain {
    const codec: Codec
    const bank: AccountBuffer
    var ledger: Ledger
    var config: Option<BlockChainConfig>
    var consensus: Ouroboros.Consensus
    var checkpoint: Checkpoint

    constructor (codec: Codec, ledger: Ledger, schedule: Ouroboros.Schedule)
      ensures fresh(bank) && this.codec == codec
      ensures State() == ChainState(ledger, World(map[], None, Ouroboros.Consensus(schedule, map[], None)), Checkpoint(0, 0))
    {
      this.codec := codec;
      this.ledger := ledger;
      bank := new AccountBuffer();
      config := None;
      consensus := Ouroboros.Consensus(schedule, map[], None);
      checkpoint := Checkpoint(0, 0);
    }

    ghost function Now(): World
      reads this, bank
    {
      World(bank.accounts, config, consensus)
    }

    ghost function State(): ChainState
      reads this, bank
    {
      ChainState(ledger, Now(), checkpoint)
    }

    method CheckTxSignatures(rec: Record, slotLeader: Id, strict: bool) returns (s: Status)
      ensures s == ValidateTxSignatures(codec, bank.accounts, rec, slotLeader, strict)
    {
      if |rec.signatures| < 1 {
        return Failed(TxSignature);
      }
      var decoded := codec.decode(rec);
      if decoded.None? {
        return Failed(InvalidArgument);
      }
      var signer := SignerOf(decoded.value, slotLeader);
      if signer !in bank.accounts {
        if strict {
          if bank.accounts == map[] && signer == ID_GENESIS {
            return Done;
          }
          return Failed(AccountNotFound);
        }
        return Done;
      }
      s := VerifySignaturesAgainstAccount(codec, rec.data, rec.signatures, bank.accounts[signer]);
    }

    method ApplyGenesisInit(tx: TypedTx) returns (s: Status)
      requires tx.TxGenesis?
      modifies this, bank
      ensures (Now(), s) == GenesisInit(codec, old(Now()), tx)
      ensures ledger == old(ledger) && checkpoint == old(checkpoint)
    {
      if tx.fee != 0 {
        return Failed(TxValidation);
      }
      var decoded := codec.genesisMetaOf(tx.meta);
      if decoded.None? {
        return Failed(Deserialize);
      }
      var gm := decoded.value;
      config := Some(gm.config);
      if consensus.schedule.genesisTime != 0 && gm.config.genesisTime != consensus.schedule.genesisTime {
        return Failed(TxValidation);
      }
      consensus := Ouroboros.Consensus(
        Ouroboros.Schedule(gm.config.genesisTime, gm.config.slotDuration, gm.config.slotsPerEpoch), map[], None);
      s := bank.AddAccount(Account.Account(ID_GENESIS, gm.genesis.wallet, 0));
      if s.Failed? {
        return Failed(InternalBuffer);
      }
    }

    method ApplyRecord(rec: Record, blockId: nat, slot: nat, slotLeader: Id, strict: bool) returns (s: Status)
      modifies this, bank
      ensures (Now(), s) == ApplyBlock(codec, old(ledger), old(Now()), rec, blockId, slot, slotLeader, strict)
      ensures ledger == old(ledger) && checkpoint == old(checkpoint)
    {
      var decoded := codec.decode(rec);
      if decoded.None? {
        return Failed(InvalidArgument);
      }
      var tx := decoded.value;
      if tx.TxGenesis? {
        if blockId != 0 || slotLeader != 0 {
          return Failed(TxType);
        }
        s := ApplyGenesisInit(tx);
        return;
      }
      var cx := Context(codec, ledger, config, consensus.schedule);
      var (wallet, w) := IdempotencyOf(tx);
      s := Idempotency(cx, wallet, w, slot, strict);
      if s.Failed? {
        return;
      }
      s := HandleRecord(cx, tx, bank, map[], blockId, strict);
      if tx.TxConfig? && s.Done? {
        config := Some(codec.genesisMetaOf(tx.meta).value.config);
      }
    }

    method ApplyRecords(block: Block, strict: bool) returns (s: Status)
      modifies this, bank
      ensures (Now(), s) == ProcessRecords(codec, old(ledger), old(Now()), block, 0, strict)
      ensures ledger == old(ledger) && checkpoint == old(checkpoint)
    {
      var i := 0;
      while i < |block.records|
        invariant 0 <= i <= |block.records|
        invariant ledger == old(ledger) && checkpoint == old(checkpoint)
        invariant ProcessRecords(codec, ledger, old(Now()), block, 0, strict) == ProcessRecords(codec, ledger, Now(), block, i, strict)
      {
        s := CheckTxSignatures(block.records[i], block.slotLeader, strict);
        if s.Failed? {
          return;
        }
        s := ApplyRecord(block.records[i], block.index, block.slot, block.slotLeader, strict);
        if s.Failed? {
          return;
        }
        i := i + 1;
      }
      return Done;
    }

    method ValidateStrictBlock(block: Block, now: int) returns (s: Status)
      ensures s == ValidateStrict(codec, ledger, bank.accounts, config, consensus, checkpoint, block, now)
    {
      if !consensus.schedule.IsSet() {
        return Failed(ConsensusNotSet);
      }
      if !ValidLeader(codec, consensus, block) {
        return Failed(ConsensusSlotLeader);
      }
      if !Ouroboros.ValidBlockTiming(consensus.schedule, block.timestamp, block.slot) {
        return Failed(ConsensusTiming);
      }
      s := ValidateAccountRenewals(codec, block, bank.accounts, ledger, config, checkpoint, now);
      if s.Failed? {
        return;
      }
      if config.None? {
        return Failed(Internal);
      }
      var maxTx := config.value.maxTransactionsPerBlock;
      if maxTx > 0 && |block.records| > maxTx {
        var i := 0;
        while i < |block.records|
          invariant 0 <= i <= |block.records|
          invariant forall j | 0 <= j < i :: block.records[j].recordType == T_RENEWAL
        {
          if block.records[i].recordType != T_RENEWAL {
            return Failed(Error.BlockValidation);
          }
          i := i + 1;
        }
      }
      s := ValidateIntraBlockIdempotency(codec, block.records);
    }

    method ProcessNormal(node: ChainNode, strict: bool, now: int) returns (s: Status)
      modifies this, bank
      ensures (State(), s) == ProcessNormalBlock(codec, old(State()), node, strict, now)
    {
      if codec.hashOf(node.block) != node.hash {
        return Failed(Error.BlockValidation);
      }
      s := CheckSequence(ledger, node.block);
      if s.Failed? {
        return Failed(Error.BlockValidation);
      }
      if strict {
        s := ValidateStrictBlock(node.block, now);
        if s.Failed? {
          return Failed(Error.BlockValidation);
        }
      }
      s := ApplyRecords(node.block, strict);
      if s.Failed? {
        return Failed(TxValidation);
      }
      if config.Some? {
        var age := BlockAge(ledger, checkpoint.currentId, now);
        if NeedsCheckpoint(config.value, checkpoint, ledger.Next(), age) && node.block.index > checkpoint.currentId {
          checkpoint := Checkpoint(checkpoint.currentId, node.block.index);
        }
      }
    }

    method ProcessGenesis(node: ChainNode) returns (s: Status)
      modifies this, bank
      ensures (State(), s) == ProcessGenesisBlock(codec, old(State()), node)
    {
      s := ValidateGenesisBlock(codec, node);
      if s.Failed? {
        return Failed(Error.BlockValidation);
      }
      s := ApplyRecords(node.block, true);
      if s.Failed? {
        return Failed(TxValidation);
      }
    }

    method Process(node: ChainNode, strict: bool, now: int) returns (s: Status)
      modifies this, bank
      ensures (State(), s) == ProcessBlock(codec, old(State()), node, strict, now)
    {
      if node.block.index == 0 {
        s := ProcessGenesis(node);
      } else {
        s := ProcessNormal(node, strict, now);
      }
    }

    method Add(node: ChainNode, now: int) returns (s: Status)
      modifies this, bank
      ensures (State(), s) == AddBlock(codec, old(State()), node, now)
    {
      var strict := ShouldUseStrictMode(checkpoint, node.block.index);
      s := Process(node, strict, now);
      if s.Failed? {
        return Failed(Error.BlockValidation);
      }
      ledger := Appended(ledger, node);
    }

    method RefreshStakeholders(epoch: nat)
      modifies this
      ensures State() == old(State()).(world := RefreshStakes(old(Now()), epoch))
    {
      if consensus.lastUpdateEpoch != Some(epoch) {
        consensus := consensus.(stakes := StakesOf(bank.accounts), lastUpdateEpoch := Some(epoch));
      }
    }

    method Load(startingBlockId: nat, now: int) returns (s: Status)
      modifies this, bank
      ensures (State(), s) == LoadFromLedger(codec, old(State()), startingBlockId, now)
    {
      hide ProcessBlock;
      hide RefreshStakes;
      bank.Clear();
      checkpoint := Checkpoint(startingBlockId, startingBlockId);
      var id := startingBlockId;
      var strict := startingBlockId == 0;
      while ledger.Has(id)
        invariant ledger == old(ledger)
        invariant LoadFromLedger(codec, old(State()), startingBlockId, now) == Replay(codec, State(), id, strict, now)
        decreases ledger.Next() - id
      {
        var node := ledger.nodes[id - ledger.start];
        if node.block.index != id {
          return Failed(BlockIndex);
        }
        if id > 0 {
          if !consensus.schedule.IsSet() {
            return Failed(ConsensusNotSet);
          }
          RefreshStakeholders(Ouroboros.EpochFromSlot(consensus.schedule, node.block.slot));
        }
        s := Process(node, strict, now);
        if s.Failed? {
          return Failed(Error.BlockValidation);
        }
        id := id + 1;
      }
      return Done;
    }
  }
}
