/** When a miner cuts a block and what the block says. */
module Producing {
  import opened Numbers
  import opened Outcomes
  import opened ChainTypes
  import opened Bank
  import opened LedgerView
  import opened TxFees
  import opened TxHandlers
  import opened Renewals
  import opened Mining

  /** The slot is prepared for a leader, or can be, with something to put into a block. */
  predicate HasSlot(v: View, m: MinerState, isLeader: bool, signed: Option<seq<Record>>) {
    if m.cache.slot == v.slot then m.cache.isLeader && (m.cache.renewals != [] || m.pending != [])
    else
      && isLeader && signed.Some? && (signed.value != [] || m.pending != [])
      && AddBuffers(v, m.minerId, map[], signed.value + m.pending).1.Done?
  }

  /** A block is cut if and only if none is marked for the slot, the slot is prepared for a leader or can be and there is something to put
      into a block, it is time, and there is a block to follow. */
  lemma ProducesIff(v: View, m: MinerState, isLeader: bool, signed: Option<seq<Record>>, productionTime: bool, timestamp: int, maxTx: nat)
    ensures var r := TryBlock(v, m, isLeader, signed, productionTime, timestamp, maxTx).1;
      (r.Ok? && r.value.Some?) <==>
        && m.lastProducedSlot != v.slot && HasSlot(v, m, isLeader, signed) && productionTime && v.chain.ledger.nodes != []
  {
    hide AddBuffers;
  }

  /** The block follows the last one, in the slot, by the miner, at the given time, with its own hash. It holds the renewals of the slot and
      after them as many pending transactions, in the order they were taken, as the limit leaves room for. */
  lemma ProducedSays(v: View, m: MinerState, isLeader: bool, signed: Option<seq<Record>>, productionTime: bool, timestamp: int, maxTx: nat)
    requires var r := TryBlock(v, m, isLeader, signed, productionTime, timestamp, maxTx).1; r.Ok? && r.value.Some?
    ensures v.chain.ledger.nodes != []
    ensures var node := TryBlock(v, m, isLeader, signed, productionTime, timestamp, maxTx).1.value.value; var block := node.block;
      var last := v.chain.ledger.nodes[|v.chain.ledger.nodes| - 1];
      && node.hash == v.codec.hashOf(block)
      && block.index == last.block.index + 1 && block.previousHash == last.hash && block.txIndex == last.block.txIndex + |last.block.records|
      && block.slot == v.slot && block.slotLeader == m.minerId && block.timestamp == timestamp && block.nonce == 0
    ensures var (after, r) := TryBlock(v, m, isLeader, signed, productionTime, timestamp, maxTx);
      var renewals, records := after.cache.renewals, r.value.value.block.records;
      && renewals == (if m.cache.slot == v.slot then m.cache.renewals else signed.value)
      && renewals <= records && records[|renewals|..] <= m.pending
      && |records| == if maxTx == 0 || |renewals| + |m.pending| <= maxTx then |renewals| + |m.pending|
                      else if |renewals| <= maxTx then maxTx else |renewals|
  {
    hide AddBuffers;
    var renewals := TryBlock(v, m, isLeader, signed, productionTime, timestamp, maxTx).0.cache.renewals;
    forall n: nat | n <= |m.pending|
      ensures (renewals + m.pending[..n])[|renewals|..] == m.pending[..n]
    {
    }
  }

  /** Preparing a slot notes it, with its renewals if the miner leads it and signed them, and nothing but the pending transactions applied on
      top. What fails forgets the slot. */
  lemma PreparedIs(v: View, m: MinerState, isLeader: bool, signed: Option<seq<Record>>)
    ensures var (after, s) := PrepareSlot(v, m, isLeader, signed);
      && (s.Done? <==> (isLeader ==> signed.Some? && AddBuffers(v, m.minerId, map[], signed.value + m.pending).1.Done?))
      && (s.Done? ==> after.cache.slot == v.slot && after.cache.isLeader == isLeader
                      && after.cache.renewals == (if isLeader then signed.value else [])
                      && after.overlay == if isLeader then AddBuffers(v, m.minerId, map[], signed.value + m.pending).0 else m.overlay)
      && (s.Failed? ==> after.cache.slot == 0 && !after.cache.isLeader && after.cache.renewals == [])
      && after.pending == m.pending && after.forward == m.forward && after.minerId == m.minerId
      && after.lastProducedSlot == m.lastProducedSlot && after.lastProducedBlockId == m.lastProducedBlockId
  {
    hide AddBuffers;
  }

  /** A transaction that is taken goes behind the pending ones; one that is not leaves only the overlay touched. */
  lemma TakenIs(v: View, m: MinerState, rec: Record)
    ensures var (after, s) := AddTransaction(v, m, rec);
      && (s.Done? <==> AddBuffer(v, m.minerId, m.overlay, rec).1.Done?)
      && after == m.(overlay := AddBuffer(v, m.minerId, m.overlay, rec).0, pending := if s.Done? then m.pending + [rec] else m.pending)
  {
    hide AddBuffer;
  }

  // ----- renewals -----

  /** What an account's metadata says in the block that set it last. */
  predicate Readable(cx: Context, b: Accounts, id: Id)
    requires id in b
  {
    ReadBlock(cx.ledger, b[id].blockId).Some? &&
    if id == ID_GENESIS then GenesisMetaFromBlock(cx.codec, ReadBlock(cx.ledger, b[id].blockId).value.block).Ok?
    else UserAccountFromBlock(cx.codec, ReadBlock(cx.ledger, b[id].blockId).value.block, id).Ok?
  }

  /** What is made for an account that is due, its fee being known. One other than the genesis and the fee account is ended if and only if it holds
      less than the fee, but nothing negative, which counts as a large number. Otherwise it is renewed if and only if its metadata can be read and
      what it holds of native tokens, if it lists them, can go down by the fee: to the bottom of the range for those two, to zero for others. */
  lemma RenewalMadeIff(cx: Context, b: Accounts, id: Id, fee: u64)
    requires id in b && b[id].id == id && MinFee(cx, b, id) == Ok(fee) && fee <= INT64_MAX
    requires InInt64(BalanceOf(b, id, ID_GENESIS))
    ensures var ends := id > 1 && 0 <= BalanceOf(b, id, ID_GENESIS) < fee;
      && (RenewalTx(cx, b, id) == Ok(TxEndUser(id, 0, [])) <==> ends)
      && ((RenewalTx(cx, b, id).Ok? && RenewalTx(cx, b, id).value.TxRenewal?) <==>
            && !ends && Readable(cx, b, id)
            && (ID_GENESIS in b[id].wallet.balances ==>
                  BalanceOf(b, id, ID_GENESIS) - fee >= if id <= 1 then -0x8000_0000_0000_0000 else 0))
      && (RenewalTx(cx, b, id).Ok? ==> RenewalTx(cx, b, id).value.walletId == id && RenewalTx(cx, b, id).value.fee == if ends then 0 else fee)
  {
    hide MinFee, UserAccountFromBlock, GenesisMetaFromBlock;
    UnsignedLess(BalanceOf(b, id, ID_GENESIS), fee);
  }

  lemma UnsignedLess(x: int, fee: u64)
    requires InInt64(x) && fee <= INT64_MAX
    ensures Wrap(x) < fee <==> 0 <= x < fee
  {
  }
}
