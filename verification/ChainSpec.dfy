/** Processing blocks: what each step does to the chain state, as functions. */
module ChainSpec {
  import opened Numbers
  import opened Outcomes
  import opened ChainTypes
  import opened Bank
  import opened LedgerView
  import opened TxFees
  import opened TxHandlers
  import opened TxSignatures
  import opened BlockValidation
  import Ouroboros

  datatype ChainState = ChainState(ledger: Ledger, world: World, checkpoint: Checkpoint)

  // ----- signatures -----

  /** The account that must have signed; renewals and end-user records are signed by the slot leader. */
  function SignerOf(tx: TypedTx, slotLeader: Id): Id {
    match tx
    case TxDefault(_, from, _, _, _, _, _) => from
    case TxNewUser(from, _, _, _, _, _) => from
    case TxUserUpdate(id, _, _, _) => id
    case TxRenewal(id, _, _) => if slotLeader != 0 then slotLeader else id
    case TxEndUser(id, _, _) => if slotLeader != 0 then slotLeader else id
    case _ => ID_GENESIS
  }

  function ValidateTxSignatures(codec: Codec, b: Accounts, rec: Record, slotLeader: Id, strict: bool): Status {
    if rec.signatures == [] then Failed(TxSignature)
    else
      match codec.decode(rec)
      case None => Failed(InvalidArgument)
      case Some(tx) =>
        var signer := SignerOf(tx, slotLeader);
        if signer in b then CheckSignatures(codec, rec.data, rec.signatures, b[signer])
        else if !strict || (b == map[] && signer == ID_GENESIS) then Done
        else Failed(AccountNotFound)
  }

  // ----- records -----

  function ProcessRecord(codec: Codec, l: Ledger, w: World, rec: Record, block: Block, strict: bool): (World, Status) {
    var signed := ValidateTxSignatures(codec, w.accounts, rec, block.slotLeader, strict);
    if signed.Failed? then (w, signed)
    else ApplyBlock(codec, l, w, rec, block.index, block.slot, block.slotLeader, strict)
  }

  /** The records from position `i` on, until one fails. Nothing is undone then. */
  function ProcessRecords(codec: Codec, l: Ledger, w: World, block: Block, i: nat, strict: bool): (World, Status)
    requires i <= |block.records|
    decreases |block.records| - i
  {
    if i == |block.records| then (w, Done)
    else
      var (next, s) := ProcessRecord(codec, l, w, block.records[i], block, strict);
      if s.Failed? then (next, s) else ProcessRecords(codec, l, next, block, i + 1, strict)
  }

  // ----- the genesis block -----

  /** A genesis record that creates the account `to` and pays exactly the minimum fee. */
  function GenesisNewUser(codec: Codec, config: BlockChainConfig, rec: Record, to: Id): (r: Result<TypedTx>)
    ensures r.Ok? ==> r.value.TxNewUser?
  {
    match codec.decode(rec)
    case Some(TxNewUser(from, dest, amount, fee, meta, w)) =>
      var tx := TxNewUser(from, dest, amount, fee, meta, w);
      if rec.recordType != T_NEW_USER || from != ID_GENESIS || dest != to || fee > INT64_MAX then Err(BlockGenesis)
      else
        var minimum := MinFeeForTx(codec, config, tx);
        if minimum.Err? then Err(minimum.error) else if fee != minimum.value then Err(BlockGenesis) else Ok(tx)
    case _ => Err(BlockGenesis)
  }

  function ValidateGenesisRecords(codec: Codec, config: BlockChainConfig, records: seq<Record>): Status
    requires |records| == 4
  {
    var fee := GenesisNewUser(codec, config, records[1], ID_FEE);
    var reserve := GenesisNewUser(codec, config, records[2], ID_RESERVE);
    var recycle := GenesisNewUser(codec, config, records[3], ID_RECYCLE);
    if fee.Err? then Failed(fee.error)
    else if fee.value.amount != 0 || fee.value.meta == [] then Failed(BlockGenesis)
    else if reserve.Err? then Failed(reserve.error)
    else if recycle.Err? then Failed(recycle.error)
    else if Wrap(reserve.value.amount + fee.value.fee + reserve.value.fee + recycle.value.fee) != INITIAL_TOKEN_SUPPLY then
      Failed(BlockGenesis)
    else if recycle.value.amount != 0 || recycle.value.meta == [] then Failed(BlockGenesis)
    else Done
  }

  function ValidateGenesisBlock(codec: Codec, node: ChainNode): Status {
    var block := node.block;
    if block.index != 0 || block.previousHash != ['0' as int] || block.nonce != 0 || block.slot != 0 ||
       block.slotLeader != 0 || block.txIndex != 0 || |block.records| != 4 then Failed(BlockGenesis)
    else if block.records[0].recordType != T_GENESIS then Failed(BlockGenesis)
    else
      match codec.decode(block.records[0])
      case Some(TxGenesis(_, meta)) =>
        if codec.genesisMetaOf(meta).None? then Failed(BlockGenesis)
        else
          var records := ValidateGenesisRecords(codec, codec.genesisMetaOf(meta).value.config, block.records);
          if records.Failed? then records
          else if codec.hashOf(block) != node.hash then Failed(BlockHash)
          else Done
      case _ => Failed(BlockGenesis)
  }

  function ProcessGenesisBlock(codec: Codec, st: ChainState, node: ChainNode): (ChainState, Status) {
    if ValidateGenesisBlock(codec, node).Failed? then (st, Failed(Error.BlockValidation))
    else
      var (w, s) := ProcessRecords(codec, st.ledger, st.world, node.block, 0, true);
      (st.(world := w), if s.Failed? then Failed(TxValidation) else Done)
  }

  // ----- normal blocks -----

  /** The checkpoint pair after block `index`: the current one becomes the last one when it is old enough. */
  function Rotate(l: Ledger, config: Option<BlockChainConfig>, checkpoint: Checkpoint, index: nat, now: int): Checkpoint {
    if config.Some? && NeedsCheckpoint(config.value, checkpoint, l.Next(), BlockAge(l, checkpoint.currentId, now)) &&
       index > checkpoint.currentId
    then Checkpoint(checkpoint.currentId, index)
    else checkpoint
  }

  function ValidateBlock(codec: Codec, st: ChainState, node: ChainNode, strict: bool, now: int): Status {
    ValidateNormalBlock(codec, st.ledger, st.world.accounts, st.world.config, st.world.consensus, st.checkpoint, node,
                        strict, now)
  }

  function ProcessNormalBlock(codec: Codec, st: ChainState, node: ChainNode, strict: bool, now: int): (ChainState, Status) {
    if ValidateBlock(codec, st, node, strict, now).Failed? then (st, Failed(Error.BlockValidation))
    else
      var (w, s) := ProcessRecords(codec, st.ledger, st.world, node.block, 0, strict);
      if s.Failed? then (st.(world := w), Failed(TxValidation))
      else (ChainState(st.ledger, w, Rotate(st.ledger, w.config, st.checkpoint, node.block.index, now)), Done)
  }

  function ProcessBlock(codec: Codec, st: ChainState, node: ChainNode, strict: bool, now: int): (r: (ChainState, Status))
    ensures r.0.ledger == st.ledger
  {
    if node.block.index == 0 then ProcessGenesisBlock(codec, st, node)
    else ProcessNormalBlock(codec, st, node, strict, now)
  }

  predicate ShouldUseStrictMode(checkpoint: Checkpoint, index: nat) {
    checkpoint.currentId == 0 || (checkpoint.currentId != checkpoint.lastId && index >= checkpoint.currentId)
  }

  function Appended(l: Ledger, node: ChainNode): Ledger {
    Ledger.Ledger(l.start, l.nodes + [node])
  }

  /** A block offered to the chain: processed, then appended to the ledger. A failure may leave records applied. */
  function AddBlock(codec: Codec, st: ChainState, node: ChainNode, now: int): (ChainState, Status) {
    var (processed, s) := ProcessBlock(codec, st, node, ShouldUseStrictMode(st.checkpoint, node.block.index), now);
    if s.Failed? then (processed, Failed(Error.BlockValidation))
    else (processed.(ledger := Appended(st.ledger, node)), Done)
  }

  // ----- stakeholders -----

  function StakesOf(b: Accounts): map<Id, u64> {
    map id | id in b && 0 < BalanceOf(b, id, ID_GENESIS) < TWO_64 :: BalanceOf(b, id, ID_GENESIS)
  }

  function RefreshStakes(w: World, epoch: nat): World {
    if w.consensus.lastUpdateEpoch == Some(epoch) then w
    else w.(consensus := w.consensus.(stakes := StakesOf(w.accounts), lastUpdateEpoch := Some(epoch)))
  }

  // ----- replay from the ledger -----

  /** The loop of `loadFromLedger` from block `id` on: the ledger already holds every block. */
  function Replay(codec: Codec, st: ChainState, id: nat, strict: bool, now: int): (ChainState, Status)
    decreases st.ledger.Next() - id
  {
    if !st.ledger.Has(id) then (st, Done)
    else
      var node := st.ledger.nodes[id - st.ledger.start];
      if node.block.index != id then (st, Failed(BlockIndex))
      else if id > 0 && !st.world.consensus.schedule.IsSet() then (st, Failed(ConsensusNotSet))
      else
        var refreshed := if id == 0 then st
          else st.(world := RefreshStakes(st.world, Ouroboros.EpochFromSlot(st.world.consensus.schedule, node.block.slot)));
        var (next, s) := ProcessBlock(codec, refreshed, node, strict, now);
        if s.Failed? then (next, Failed(Error.BlockValidation)) else Replay(codec, next, id + 1, strict, now)
  }

  function LoadFromLedger(codec: Codec, st: ChainState, startingBlockId: nat, now: int): (ChainState, Status) {
    var reset := ChainState(st.ledger, st.world.(accounts := map[]), Checkpoint(startingBlockId, startingBlockId));
    Replay(codec, reset, startingBlockId, startingBlockId == 0, now)
  }
}
