/** A pending transaction that no slot will accept any more keeps its producer from preparing every slot it leads: only a
    produced block takes transactions off the pending list. */
module SpentRecords {
  import opened Numbers
  import opened Outcomes
  import opened ChainTypes
  import opened Bank
  import opened LedgerView
  import opened TxHandlers
  import opened TxIdempotency
  import opened ChainSpec
  import opened Mining
  import Ouroboros

  // ----- one record -----

  /** The record's window has passed, or a block of the window before this slot holds its key. */
  ghost predicate Spent(v: View, rec: Record) {
    var c := v.chain.world.consensus.schedule;
    && v.codec.decode(rec).Some? && c.IsSet()
    && var (wallet, w) := IdempotencyOf(v.codec.decode(rec).value);
       var first := Ouroboros.SlotFromTimestamp(c, w.tsMin);
       && w.idempotentId != 0
       && (v.slot > Ouroboros.SlotFromTimestamp(c, w.tsMax) ||
           (v.slot > first && KeyInWindow(v.codec, v.chain.ledger, (wallet, w.idempotentId), first, v.slot - 1)))
  }

  /** The ledger in order, and the record's window within 64 bits. */
  ghost predicate Placed(v: View, rec: Record) {
    && Orderly(v.chain.ledger, v.chain.world.consensus.schedule)
    && (v.codec.decode(rec).Some? ==> IdempotencyOf(v.codec.decode(rec).value).1.tsMin <= INT64_MAX)
  }

  /** The overlay refuses a spent record, whoever leads the slot and whatever the overlay holds. */
  lemma SpentIsRefused(v: View, leader: Id, overlay: Accounts, rec: Record)
    requires Spent(v, rec) && Placed(v, rec)
    ensures AddBuffer(v, leader, overlay, rec).1.Failed?
  {
    hide ValidateTxSignatures, Handle, SeedAll, CheckIdempotency, KeyInWindow, Orderly;
    var c := v.chain.world.consensus.schedule;
    var (wallet, w) := IdempotencyOf(v.codec.decode(rec).value);
    var first := Ouroboros.SlotFromTimestamp(c, w.tsMin);
    OrderlyStarts(v.chain.ledger, c);
    Ouroboros.SlotOfTimestampInRange(c, w.tsMin);
    if first < v.slot {
      CheckMeaning(v.codec, v.chain.ledger, c, (wallet, w.idempotentId), first, v.slot - 1);
    }
  }

  lemma OrderlyStarts(l: Ledger, c: Ouroboros.Schedule)
    requires Orderly(l, c)
    ensures c.IsSet() && c.genesisTime >= 0
  {
  }

  lemma {:induction false} ListWithSpentRefused(v: View, leader: Id, overlay: Accounts, records: seq<Record>, rec: Record)
    requires rec in records && Spent(v, rec) && Placed(v, rec)
    ensures AddBuffers(v, leader, overlay, records).1.Failed?
    decreases |records|
  {
    hide AddBuffer, Spent, Placed;
    if records[0] == rec {
      SpentIsRefused(v, leader, overlay, rec);
    } else {
      ListWithSpentRefused(v, leader, AddBuffer(v, leader, overlay, records[0]).0, records[1..], rec);
    }
  }

  /** What the miner sees later on: a chain that has grown, and no earlier slot. */
  ghost predicate Later(v: View, u: View) {
    && u.codec == v.codec && u.slot >= v.slot && Extends(v.chain.ledger, u.chain.ledger)
    && u.chain.world.consensus.schedule == v.chain.world.consensus.schedule
  }

  /** A spent record is spent for good. */
  lemma SpentForGood(v: View, u: View, rec: Record)
    requires Spent(v, rec) && Later(v, u)
    ensures Spent(u, rec)
  {
    hide HasKey;
    var c := v.chain.world.consensus.schedule;
    var (wallet, w) := IdempotencyOf(v.codec.decode(rec).value);
    var first := Ouroboros.SlotFromTimestamp(c, w.tsMin);
    if v.slot > first && KeyInWindow(v.codec, v.chain.ledger, (wallet, w.idempotentId), first, v.slot - 1) {
      var i :| v.chain.ledger.Has(i) && first <= v.chain.ledger.At(i).slot <= v.slot - 1 &&
               HasKey(v.codec, v.chain.ledger.At(i).records, (wallet, w.idempotentId));
      assert u.chain.ledger.Has(i) && u.chain.ledger.At(i) == v.chain.ledger.At(i);
    }
  }

  // ----- the producer -----

  /** A slot cannot be prepared over a spent record, and stays unprepared with the record pending. */
  lemma SpentStopsSlot(v: View, m: MinerState, signed: Option<seq<Record>>, rec: Record)
    requires rec in m.pending && Spent(v, rec) && Placed(v, rec)
    ensures var (after, s) := PrepareSlot(v, m, true, signed);
      s.Failed? && after.pending == m.pending && after.cache == NO_SLOT
  {
    hide AddBuffers, Spent, Placed;
    if signed.Some? {
      assert rec in signed.value + m.pending;
      ListWithSpentRefused(v, m.minerId, map[], signed.value + m.pending, rec);
    }
  }

  /** What a miner does in the course of time: it tries to produce a block, takes a transaction, and notes a block as produced.
      The renewals come signed, or not at all. */
  datatype Act =
    | Try(v: View, isLeader: bool, signed: Option<seq<Record>>, productionTime: bool, timestamp: int, maxTx: nat)
    | Take(v: View, rec: Record)
    | Note(node: ChainNode)

  function Tried(m: MinerState, a: Act): (MinerState, Result<Option<ChainNode>>)
    requires a.Try?
  {
    TryBlock(a.v, m, a.isLeader, a.signed, a.productionTime, a.timestamp, a.maxTx)
  }

  function After(m: MinerState, a: Act): MinerState {
    match a
    case Try(_, _, _, _, _, _) => Tried(m, a).0
    case Take(v, rec) => AddTransaction(v, m, rec).0
    case Note(node) => m.(lastProducedBlockId := node.block.index, lastProducedSlot := node.block.slot)
  }

  /** No block comes out of any of the acts. */
  predicate NothingProduced(m: MinerState, acts: seq<Act>)
    decreases |acts|
  {
    acts == [] ||
    ((acts[0].Try? ==> var r := Tried(m, acts[0]).1; r.Err? || r.value.None?) && NothingProduced(After(m, acts[0]), acts[1..]))
  }

  function AfterAll(m: MinerState, acts: seq<Act>): MinerState
    decreases |acts|
  {
    if acts == [] then m else AfterAll(After(m, acts[0]), acts[1..])
  }

  /** The record is pending and no slot from this one on is prepared. */
  predicate Stuck(m: MinerState, rec: Record, slot: nat) {
    rec in m.pending && (m.cache.isLeader ==> m.cache.slot < slot)
  }

  lemma ActKeepsStuck(v: View, m: MinerState, a: Act, rec: Record)
    requires Stuck(m, rec, v.slot) && Spent(v, rec)
    requires a.Try? ==> Later(v, a.v) && Placed(a.v, rec)
    ensures Stuck(After(m, a), rec, v.slot)
    ensures a.Try? ==> Tried(m, a).1.Err? || Tried(m, a).1.value.None?
  {
    hide AddBuffer, AddBuffers, Spent, Placed;
    if a.Try? {
      SpentForGood(v, a.v, rec);
      if a.isLeader {
        SpentStopsSlot(a.v, m, a.signed, rec);
      }
    }
  }

  /** From then on, whatever the miner is asked to do and however the chain grows, it produces no block, and the record stays
      pending. */
  lemma {:induction false} SpentStopsProducer(v: View, m: MinerState, acts: seq<Act>, rec: Record)
    requires Stuck(m, rec, v.slot) && Spent(v, rec)
    requires forall i | 0 <= i < |acts| && acts[i].Try? :: Later(v, acts[i].v) && Placed(acts[i].v, rec)
    ensures NothingProduced(m, acts) && rec in AfterAll(m, acts).pending
    decreases |acts|
  {
    hide After, Tried, Spent, Placed, Later;
    if acts != [] {
      ActKeepsStuck(v, m, acts[0], rec);
      SpentStopsProducer(v, After(m, acts[0]), acts[1..], rec);
    }
  }
}
