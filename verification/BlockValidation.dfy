/** What a block must satisfy before its records are applied. */
module BlockValidation {
  import opened Numbers
  import opened Outcomes
  import opened ChainTypes
  import opened Bank
  import opened LedgerView
  import opened TxFees
  import opened TxIdempotency
  import Ouroboros

  const T_GENESIS := 1
  const T_NEW_USER := 2
  const T_RENEWAL := 5
  const T_END_USER := 6

  // ----- sequence -----

  function CheckSequence(l: Ledger, block: Block): Status {
    if block.index < l.start || block.index > l.Next() then Failed(BlockIndex)
    else if block.index == l.start then Done
    else
      var prev := l.nodes[block.index - 1 - l.start];
      if block.index != prev.block.index + 1 then Failed(BlockIndex)
      else if block.previousHash != prev.hash then Failed(BlockHash)
      else if block.txIndex != prev.block.txIndex + |prev.block.records| then Failed(BlockIndex)
      else Done
  }

  // ----- idempotency keys inside one block -----

  predicate KeysDistinct(codec: Codec, records: seq<Record>) {
    forall i, j | 0 <= i < j < |records| && KeyOf(codec, records[i]).Some? ::
      KeyOf(codec, records[i]) != KeyOf(codec, records[j])
  }

  method ValidateIntraBlockIdempotency(codec: Codec, records: seq<Record>) returns (s: Status)
    ensures s == if KeysDistinct(codec, records) then Done else Failed(TxIdempotency)
  {
    var seen: set<Key> := {};
    var i := 0;
    while i < |records|
      invariant 0 <= i <= |records|
      invariant forall k :: k in seen <==> exists j | 0 <= j < i :: KeyOf(codec, records[j]) == Some(k)
      invariant forall j, k | 0 <= j < k < i && KeyOf(codec, records[j]).Some? ::
        KeyOf(codec, records[j]) != KeyOf(codec, records[k])
    {
      var key := KeyOf(codec, records[i]);
      if key.Some? {
        if key.value in seen {
          return Failed(TxIdempotency);
        }
        seen := seen + {key.value};
      }
      i := i + 1;
    }
    return Done;
  }

  // ----- checkpoints and renewal deadlines -----

  /** Seconds since block `id`, zero if there is no such block or it is not in the past. */
  function BlockAge(l: Ledger, id: nat, now: int): nat {
    match ReadBlock(l, id)
    case None => 0
    case Some(node) => if now > node.block.timestamp then now - node.block.timestamp else 0
  }

  function NeedsCheckpoint(config: BlockChainConfig, checkpoint: Checkpoint, nextBlockId: nat, age: nat): bool {
    && nextBlockId >= Wrap(checkpoint.currentId + config.checkpoint.minBlocks + config.slotsPerEpoch)
    && age >= config.checkpoint.minAgeSeconds
  }

  /** The deadline block: accounts last set before it must be renewed at `atBlockId`. Zero means none. */
  function MaxBlockIdForRenewal(l: Ledger, config: Option<BlockChainConfig>, checkpoint: Checkpoint, atBlockId: nat, now: int): Result<nat> {
    if config.None? then (if checkpoint.currentId > checkpoint.lastId then Err(Internal) else Ok(0))
    else
      var settings := config.value.checkpoint;
      if atBlockId < settings.minBlocks then Ok(0)
      else
        var fromBlocks := atBlockId - settings.minBlocks + 1;
        var found := if settings.minAgeSeconds > 0 && atBlockId > 0
          then FindBlockByTimestamp(l, now - ToInt64(settings.minAgeSeconds)) else None;
        var fromTime := if found.Some? then l.At(found.value).index else atBlockId;
        var deadline := Min(fromBlocks, fromTime);
        if deadline == 0 || deadline >= atBlockId then Ok(0) else Ok(deadline)
  }

  // ----- renewals -----

  function IdsBefore(b: Accounts, blockId: nat): set<Id> {
    set id | id in b && b[id].blockId < blockId
  }

  /** The account a renewal or end-user record is about. */
  function RenewalIdOf(codec: Codec, rec: Record): Option<Id> {
    match codec.decode(rec)
    case Some(TxRenewal(id, _, _)) => Some(id)
    case Some(TxEndUser(id, _, _)) => Some(id)
    case _ => None
  }

  /** A renewal-related record decodes, names a known account, and does not come before its deadline. */
  predicate RenewalAllowed(codec: Codec, b: Accounts, deadline: nat, rec: Record) {
    && (codec.decode(rec).None? ==> rec.recordType != T_RENEWAL && rec.recordType != T_END_USER)
    && var id := RenewalIdOf(codec, rec);
       id.Some? ==> id.value in b && (deadline > 0 ==> b[id.value].blockId <= deadline)
  }

  function RenewedIn(codec: Codec, records: seq<Record>): set<Id> {
    set i | 0 <= i < |records| && RenewalIdOf(codec, records[i]).Some? :: RenewalIdOf(codec, records[i]).value
  }

  /** Every record is allowed, and every account past the deadline is renewed or ended. */
  predicate RenewalsComplete(codec: Codec, b: Accounts, deadline: nat, records: seq<Record>) {
    && (forall i | 0 <= i < |records| :: RenewalAllowed(codec, b, deadline, records[i]))
    && (deadline > 0 ==> IdsBefore(b, deadline) <= RenewedIn(codec, records))
  }

  method ValidateAccountRenewals(codec: Codec, block: Block, b: Accounts, l: Ledger, config: Option<BlockChainConfig>,
                                 checkpoint: Checkpoint, now: int) returns (s: Status)
    ensures var deadline := MaxBlockIdForRenewal(l, config, checkpoint, block.index, now);
      s == if deadline.Err? then Failed(deadline.error)
           else if RenewalsComplete(codec, b, deadline.value, block.records) then Done else Failed(AccountRenewal)
  {
    var deadlineResult := MaxBlockIdForRenewal(l, config, checkpoint, block.index, now);
    if deadlineResult.Err? {
      return Failed(deadlineResult.error);
    }
    var deadline := deadlineResult.value;
    var needed: set<Id> := {};
    if deadline > 0 {
      needed := IdsBefore(b, deadline);
    }
    var renewed: set<Id> := {};
    var i := 0;
    while i < |block.records|
      invariant 0 <= i <= |block.records|
      invariant forall j | 0 <= j < i :: RenewalAllowed(codec, b, deadline, block.records[j])
      invariant renewed == RenewedIn(codec, block.records[..i])
    {
      var rec := block.records[i];
      var decoded := codec.decode(rec);
      assert block.records[..i + 1][..i] == block.records[..i];
      if decoded.None? {
        if rec.recordType == T_RENEWAL || rec.recordType == T_END_USER {
          return Failed(AccountRenewal);
        }
      } else {
        var id := RenewalIdOf(codec, rec);
        if id.Some? {
          if id.value !in b {
            return Failed(AccountRenewal);
          }
          if deadline > 0 && b[id.value].blockId > deadline {
            return Failed(AccountRenewal);
          }
          renewed := renewed + {id.value};
        }
      }
      RenewedGrows(codec, block.records, i);
      i := i + 1;
    }
    assert block.records[..i] == block.records;
    var rest := needed;
    while rest != {}
      invariant rest <= needed
      invariant needed - rest <= renewed
      decreases rest
    {
      var id :| id in rest;
      if id !in renewed {
        return Failed(AccountRenewal);
      }
      rest := rest - {id};
    }
    return Done;
  }

  lemma RenewedGrows(codec: Codec, records: seq<Record>, i: nat)
    requires i < |records|
    ensures RenewedIn(codec, records[..i + 1]) == RenewedIn(codec, records[..i]) +
      (if RenewalIdOf(codec, records[i]).Some? then {RenewalIdOf(codec, records[i]).value} else {})
  {
    var shorter, longer := records[..i], records[..i + 1];
    forall id | id in RenewedIn(codec, shorter)
      ensures id in RenewedIn(codec, longer)
    {
      var j :| 0 <= j < |shorter| && RenewalIdOf(codec, shorter[j]).Some? && RenewalIdOf(codec, shorter[j]).value == id;
      assert longer[j] == shorter[j];
    }
    if RenewalIdOf(codec, records[i]).Some? {
      assert longer[i] == records[i];
    }
  }

  // ----- the whole block -----

  predicate WithinLimit(config: BlockChainConfig, records: seq<Record>) {
    config.maxTransactionsPerBlock == 0 || |records| <= config.maxTransactionsPerBlock ||
    forall i | 0 <= i < |records| :: records[i].recordType == T_RENEWAL
  }

  predicate ValidLeader(codec: Codec, c: Ouroboros.Consensus, block: Block)
    requires c.schedule.IsSet()
  {
    && block.slotLeader == codec.slotLeader(c.stakes, block.slot, Ouroboros.EpochFromSlot(c.schedule, block.slot))
    && c.stakes != map[]
  }

  function ValidateStrict(codec: Codec, l: Ledger, b: Accounts, config: Option<BlockChainConfig>,
                          consensus: Ouroboros.Consensus, checkpoint: Checkpoint, block: Block, now: int): Status {
    if !consensus.schedule.IsSet() then Failed(ConsensusNotSet)
    else if !ValidLeader(codec, consensus, block) then Failed(ConsensusSlotLeader)
    else if !Ouroboros.ValidBlockTiming(consensus.schedule, block.timestamp, block.slot) then Failed(ConsensusTiming)
    else
      match MaxBlockIdForRenewal(l, config, checkpoint, block.index, now)
      case Err(e) => Failed(e)
      case Ok(deadline) =>
        if !RenewalsComplete(codec, b, deadline, block.records) then Failed(AccountRenewal)
        else if config.None? then Failed(Internal)
        else if !WithinLimit(config.value, block.records) then Failed(Error.BlockValidation)
        else if !KeysDistinct(codec, block.records) then Failed(TxIdempotency)
        else Done
  }

  function ValidateNormalBlock(codec: Codec, l: Ledger, b: Accounts, config: Option<BlockChainConfig>,
                               consensus: Ouroboros.Consensus, checkpoint: Checkpoint, node: ChainNode, strict: bool,
                               now: int): Status {
    if codec.hashOf(node.block) != node.hash then Failed(BlockHash)
    else
      var sequence := CheckSequence(l, node.block);
      if sequence.Failed? then sequence
      else if strict then ValidateStrict(codec, l, b, config, consensus, checkpoint, node.block, now)
      else Done
  }
}
