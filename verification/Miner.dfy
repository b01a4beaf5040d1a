/** The miner object: its overlay bank, its pending and forwarded transactions and its slot cache change in place, as the
    functions of `Mining` say. The clock, the slot, the leadership and the signing keys are passed in. */
module Miners {
  import opened Numbers
  import opened Outcomes
  import opened ChainTypes
  import opened Bank
  import opened AccountBuffers
  import opened LedgerView
  import opened TxHandlers
  import opened TxHandlerMethods
  import opened ChainSpec
  import opened Renewals
  import opened Chains
  import opened Mining

  class Miner {
    const chain: Chain
    const bufferBank: AccountBuffer
    const minerId: Id
    var pendingTxes: seq<Record>
    var forwardCache: seq<Record>
    var lastProducedSlot: nat
    var lastProducedBlockId: nat
    var slotCache: SlotCache

    ghost function State(): MinerState
      reads this, bufferBank
    {
      MinerState(minerId, bufferBank.accounts, pendingTxes, forwardCache, lastProducedSlot, lastProducedBlockId, slotCache)
    }

    ghost function Sees(slot: nat): View
      reads chain, chain.bank
    {
      View(chain.codec, chain.State(), slot)
    }

    ghost predicate Valid() {
      bufferBank != chain.bank
    }

    constructor (chain: Chain, minerId: Id)
      ensures Valid() && this.chain == chain && fresh(bufferBank)
      ensures State() == MinerState(minerId, map[], [], [], 0, 0, NO_SLOT)
    {
      this.chain, this.minerId := chain, minerId;
      bufferBank := new AccountBuffer();
      pendingTxes, forwardCache, lastProducedSlot, lastProducedBlockId, slotCache := [], [], 0, 0, NO_SLOT;
    }

    method AddBufferTransaction(slot: nat, rec: Record) returns (s: Status)
      requires Valid()
      modifies bufferBank
      ensures (bufferBank.accounts, s) == AddBuffer(Sees(slot), minerId, old(bufferBank.accounts), rec)
    {
      hide ApplyBuffer, ValidateTxSignatures;
      s := chain.CheckTxSignatures(rec, minerId, true);
      if s.Failed? {
        return Failed(TxSignature);
      }
      var cx := Context(chain.codec, chain.ledger, chain.config, chain.consensus.schedule);
      s := ApplyToBuffer(cx, chain.bank, rec, bufferBank, chain.ledger.Next(), slot);
    }

    method TakeTransaction(slot: nat, rec: Record) returns (s: Status)
      requires Valid()
      modifies this, bufferBank
      ensures (State(), s) == AddTransaction(Sees(slot), old(State()), rec)
    {
      hide AddBuffer;
      s := AddBufferTransaction(slot, rec);
      if s.Failed? {
        return;
      }
      pendingTxes := pendingTxes + [rec];
    }

    method AddToForwardCache(rec: Record)
      modifies this`forwardCache
      ensures forwardCache == old(forwardCache) + [rec]
    {
      forwardCache := forwardCache + [rec];
    }

    method DrainForwardCache() returns (r: seq<Record>)
      modifies this`forwardCache
      ensures r == old(forwardCache) && forwardCache == []
    {
      r := forwardCache;
      forwardCache := [];
    }

    /** Signs the renewals and applies them, one after another, to the empty overlay. */
    method ApplyRenewals(slot: nat, renewals: seq<Record>, sign: Bytes -> Option<seq<Bytes>>)
      returns (s: Status, txRenewals: seq<Record>)
      requires Valid() && bufferBank.accounts == map[]
      modifies bufferBank
      ensures s.Done? ==> Signed(sign, renewals) == Some(txRenewals)
      ensures s.Done? ==> AddBuffers(Sees(slot), minerId, map[], txRenewals) == (bufferBank.accounts, Done)
      ensures s.Failed? && Signed(sign, renewals).Some? ==> forall pending: seq<Record> ::
        AddBuffers(Sees(slot), minerId, map[], Signed(sign, renewals).value + pending).1.Failed?
    {
      hide AddBuffer, AddBuffers, Signed;
      ghost var v := Sees(slot);
      txRenewals := [];
      var i := 0;
      AddNothing(v, minerId, map[]);
      SignedFrom(sign, [], renewals, 0);
      while i < |renewals|
        invariant i <= |renewals| && v == Sees(slot)
        invariant Signed(sign, renewals) == Joined(txRenewals, Signed(sign, renewals[i..]))
        invariant AddBuffers(v, minerId, map[], txRenewals) == (bufferBank.accounts, Done)
      {
        var rec := renewals[i];
        SignedFrom(sign, txRenewals, renewals, i);
        var signatures := sign(rec.data);
        if signatures.None? {
          return Failed(Internal), txRenewals;
        }
        rec := rec.(signatures := rec.signatures + signatures.value);
        s := AddBufferTransaction(slot, rec);
        AddOneMore(v, minerId, map[], txRenewals, rec);
        if s.Failed? {
          SignedStarts(sign, txRenewals + [rec], renewals, i + 1);
          AddFails(v, minerId, txRenewals + [rec], sign, renewals);
          return;
        }
        txRenewals := txRenewals + [rec];
        i := i + 1;
      }
      SignedAll(sign, txRenewals, renewals);
      s := Done;
    }

    /** Applies the pending transactions again, behind the renewals. */
    method ReapplyPending(slot: nat, txRenewals: seq<Record>) returns (s: Status)
      requires Valid() && AddBuffers(Sees(slot), minerId, map[], txRenewals) == (bufferBank.accounts, Done)
      modifies bufferBank
      ensures s.Done? <==> AddBuffers(Sees(slot), minerId, map[], txRenewals + pendingTxes).1.Done?
      ensures s.Done? ==> AddBuffers(Sees(slot), minerId, map[], txRenewals + pendingTxes) == (bufferBank.accounts, Done)
    {
      hide AddBuffer, AddBuffers;
      ghost var v := Sees(slot);
      var i := 0;
      assert txRenewals + pendingTxes[..0] == txRenewals;
      while i < |pendingTxes|
        invariant i <= |pendingTxes| && v == Sees(slot)
        invariant AddBuffers(v, minerId, map[], txRenewals + pendingTxes[..i]) == (bufferBank.accounts, Done)
      {
        var rec := pendingTxes[i];
        s := AddBufferTransaction(slot, rec);
        AddOneMore(v, minerId, map[], txRenewals + pendingTxes[..i], rec);
        assert txRenewals + pendingTxes[..i] + [rec] == txRenewals + pendingTxes[..i + 1];
        if s.Failed? {
          assert txRenewals + pendingTxes == txRenewals + pendingTxes[..i + 1] + pendingTxes[i + 1..];
          AddPrefix(v, minerId, map[], txRenewals + pendingTxes[..i + 1], pendingTxes[i + 1..]);
          return;
        }
        i := i + 1;
      }
      assert pendingTxes[..|pendingTxes|] == pendingTxes;
      return Done;
    }

    /** Once per slot: the leader collects and signs the renewals and applies them and then the pending transactions to an
        empty overlay. A failure forgets the slot, so that it is prepared again. */
    method InitSlotCache(slot: nat, isLeader: bool, now: int, sign: Bytes -> Option<seq<Bytes>>) returns (s: Status)
      requires Valid()
      modifies this`slotCache, bufferBank
      ensures var prepared := PrepareSlot(Sees(slot), old(State()), isLeader, SignedRenewals(Sees(slot), sign, now));
        && (s.Done? <==> prepared.1.Done?)
        && (s.Done? ==> State() == prepared.0)
        && State().(overlay := map[]) == prepared.0.(overlay := map[])
    {
      hide AddBuffers, Signed, Collected;
      slotCache := SlotCache(slot, isLeader, []);
      if !isLeader {
        return Done;
      }
      bufferBank.Clear();
      var cx := Context(chain.codec, chain.ledger, chain.config, chain.consensus.schedule);
      var renewals := CollectRenewals(cx, chain.bank.accounts, chain.checkpoint, now);
      if renewals.Err? {
        slotCache := NO_SLOT;
        return Failed(Internal);
      }
      var txRenewals;
      s, txRenewals := ApplyRenewals(slot, renewals.value, sign);
      if s.Failed? {
        slotCache := NO_SLOT;
        return;
      }
      slotCache := SlotCache(slot, true, txRenewals);
      s := ReapplyPending(slot, txRenewals);
      if s.Failed? {
        slotCache := NO_SLOT;
      }
    }

    function MaxTx(): nat
      reads chain
    {
      if chain.config.Some? then chain.config.value.maxTransactionsPerBlock else 0
    }

    method GetBlockTransactionSet() returns (records: seq<Record>, nPendingIncluded: nat)
      ensures (records, nPendingIncluded)
           == TransactionSet(State(), MaxTx())
    {
      var maxTx := MaxTx();
      var renewalsCount := |slotCache.renewals|;
      if maxTx == 0 {
        nPendingIncluded := |pendingTxes|;
      } else {
        var pendingCap := if maxTx > renewalsCount then maxTx - renewalsCount else 0;
        nPendingIncluded := if |pendingTxes| <= pendingCap then |pendingTxes| else pendingCap;
      }
      records := slotCache.renewals + pendingTxes[..nPendingIncluded];
    }

    /** With the slot prepared: a block by the leader, when there is something to put into it and the time has come. The
        transactions that do not fit are forwarded. */
    method CutBlock(slot: nat, productionTime: bool, timestamp: int) returns (r: Result<Option<ChainNode>>)
      modifies this`pendingTxes, this`forwardCache
      ensures r == Production(Sees(slot), old(State()), productionTime, timestamp, MaxTx())
      ensures State() == if r.Ok? && r.value.Some? then AfterProduction(old(State()), MaxTx()) else old(State())
    {
      hide CreateBlock, TransactionSet;
      if !slotCache.isLeader {
        return Ok(None);
      }
      if slotCache.renewals == [] && pendingTxes == [] {
        return Ok(None);
      }
      if !productionTime {
        return Ok(None);
      }
      var records, n := GetBlockTransactionSet();
      var node := NextBlock(slot, records, timestamp);
      if node.None? {
        return Err(LedgerRead);
      }
      if n < |pendingTxes| {
        forwardCache := forwardCache + pendingTxes[n..];
      }
      pendingTxes := [];
      return Ok(node);
    }

    /** Nothing in the slot of the block last marked as produced; a slot not prepared yet is prepared first. Until its block
        is marked, a slot with renewals yields a block at every call. */
    method ProduceBlock(slot: nat, isLeader: bool, now: int, sign: Bytes -> Option<seq<Bytes>>, productionTime: bool,
                        timestamp: int) returns (r: Result<Option<ChainNode>>)
      requires Valid()
      modifies this, bufferBank
      ensures var (after, outcome) := TryBlock(Sees(slot), old(State()), isLeader, SignedRenewals(Sees(slot), sign, now),
                                               productionTime, timestamp, MaxTx());
        && (r.Ok? <==> outcome.Ok?)
        && (r.Ok? ==> r == outcome && State() == after)
        && State().(overlay := map[]) == after.(overlay := map[])
    {
      hide PrepareSlot, Production, AfterProduction, SignedRenewals;
      if lastProducedSlot == slot {
        return Ok(None);
      }
      if slotCache.slot != slot {
        var s := InitSlotCache(slot, isLeader, now, sign);
        if s.Failed? {
          return Err(s.error);
        }
      }
      r := CutBlock(slot, productionTime, timestamp);
    }

    method NextBlock(slot: nat, records: seq<Record>, timestamp: int) returns (r: Option<ChainNode>)
      ensures r == CreateBlock(Sees(slot), minerId, records, timestamp)
    {
      if chain.ledger.nodes == [] {
        return None;
      }
      var last := chain.ledger.nodes[|chain.ledger.nodes| - 1];
      var block := Block(last.block.index + 1, timestamp, records, last.hash, 0, slot, minerId,
                         last.block.txIndex + |last.block.records|);
      return Some(ChainNode(block, chain.codec.hashOf(block)));
    }

    method MarkBlockProduction(node: ChainNode)
      modifies this`lastProducedBlockId, this`lastProducedSlot
      ensures lastProducedBlockId == node.block.index && lastProducedSlot == node.block.slot
    {
      lastProducedBlockId := node.block.index;
      lastProducedSlot := node.block.slot;
    }
  }

  // ----- sequences of records offered to the overlay -----

  lemma AddNothing(v: View, leader: Id, overlay: Accounts)
    ensures AddBuffers(v, leader, overlay, []) == (overlay, Done)
  {
  }

  lemma AddOneMore(v: View, leader: Id, overlay: Accounts, xs: seq<Record>, rec: Record)
    ensures var r := AddBuffers(v, leader, overlay, xs);
      r.1.Done? ==> AddBuffers(v, leader, overlay, xs + [rec]) == AddBuffer(v, leader, r.0, rec)
  {
    hide AddBuffer;
    AddPrefix(v, leader, overlay, xs, [rec]);
    assert [rec][1..] == [];
  }

  function Joined(done: seq<Record>, r: Option<seq<Record>>): Option<seq<Record>> {
    if r.None? then None else Some(done + r.value)
  }

  lemma SignedFrom(sign: Bytes -> Option<seq<Bytes>>, done: seq<Record>, renewals: seq<Record>, i: nat)
    requires i <= |renewals|
    ensures Joined([], Signed(sign, renewals)) == Signed(sign, renewals) && renewals[0..] == renewals
    ensures i < |renewals| && sign(renewals[i].data).None? ==> Joined(done, Signed(sign, renewals[i..])) == None
    ensures i < |renewals| && sign(renewals[i].data).Some? ==>
      Joined(done, Signed(sign, renewals[i..])) == Joined(done + [renewals[i].(signatures :=
        renewals[i].signatures + sign(renewals[i].data).value)], Signed(sign, renewals[i + 1..]))
  {
    if Signed(sign, renewals).Some? {
      assert [] + Signed(sign, renewals).value == Signed(sign, renewals).value;
    }
    if i < |renewals| {
      assert renewals[i..][0] == renewals[i] && renewals[i..][1..] == renewals[i + 1..];
      if sign(renewals[i].data).Some? && Signed(sign, renewals[i + 1..]).Some? {
        var first := [renewals[i].(signatures := renewals[i].signatures + sign(renewals[i].data).value)];
        assert done + (first + Signed(sign, renewals[i + 1..]).value) == done + first + Signed(sign, renewals[i + 1..]).value;
      }
    }
  }

  lemma SignedStarts(sign: Bytes -> Option<seq<Bytes>>, done: seq<Record>, renewals: seq<Record>, i: nat)
    requires i <= |renewals| && Signed(sign, renewals) == Joined(done, Signed(sign, renewals[i..]))
    ensures Signed(sign, renewals).Some? ==> done <= Signed(sign, renewals).value
  {
  }

  lemma SignedAll(sign: Bytes -> Option<seq<Bytes>>, done: seq<Record>, renewals: seq<Record>)
    requires Signed(sign, renewals) == Joined(done, Signed(sign, renewals[|renewals|..]))
    ensures Signed(sign, renewals) == Some(done)
  {
    assert renewals[|renewals|..] == [] && done + [] == done;
  }

  lemma AddFails(v: View, leader: Id, done: seq<Record>, sign: Bytes -> Option<seq<Bytes>>, renewals: seq<Record>)
    requires AddBuffers(v, leader, map[], done).1.Failed?
    requires Signed(sign, renewals).Some? ==> done <= Signed(sign, renewals).value
    ensures Signed(sign, renewals).Some? ==> forall pending: seq<Record> ::
      AddBuffers(v, leader, map[], Signed(sign, renewals).value + pending).1.Failed?
  {
    hide AddBuffer, AddBuffers, Signed;
    if Signed(sign, renewals).Some? {
      var all := Signed(sign, renewals).value;
      forall pending: seq<Record> ensures AddBuffers(v, leader, map[], all + pending).1.Failed? {
        assert all + pending == done + (all[|done|..] + pending);
        AddPrefix(v, leader, map[], done, all[|done|..] + pending);
      }
    }
  }
}
