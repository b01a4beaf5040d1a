/** The ledger as the object the program holds, over the block store object. */
module LedgerStore {
  import opened Numbers
  import opened Outcomes
  import opened ChainTypes
  import opened ChainCodec
  import opened Ranges
  import opened DirDirFormat
  import opened DirDirLaws
  import opened StoreRuns
  import opened DirDirStores
  import opened LedgerFormat
  import opened LedgerLaws
  import LedgerView

  class Ledger {
    const store: DirDirStore
    var startingBlockId: nat
    var checkpointIds: seq<nat>
    var latestBlockCache: Option<ChainNode>

    ghost function State(): LedgerState
      reads this, store
    {
      LedgerState(startingBlockId, checkpointIds, store.State(), latestBlockCache)
    }

    ghost predicate Contains(nodes: seq<ChainNode>)
      reads this, store
    {
      LedgerHolds(State(), nodes)
    }

    constructor ()
      ensures fresh(store) && latestBlockCache == None
    {
      store := new DirDirStore();
      startingBlockId, checkpointIds, latestBlockCache := 0, [], None;
    }

    method Init(start: nat) returns (ok: bool)
      modifies this, store
      ensures ok && State() == InitLedger(start, old(latestBlockCache))
      ensures old(latestBlockCache).None? ==> Contains([])
    {
      hide LedgerHolds;
      ok := store.Init(MAX_DIR_COUNT, MAX_FILE_COUNT, MAX_FILE_SIZE);
      startingBlockId := start;
      checkpointIds := [];
      InitHolds(start);
    }

    method GetNextBlockId() returns (id: nat)
      ensures id == NextId(State())
    {
      id := startingBlockId + store.totalBlockCount;
    }

    method AddBlock(node: ChainNode) returns (s: Status)
      requires NodeFits(node) && store.Valid() && StoreHeaded(store.State())
      modifies this, store
      ensures (State(), s) == AddNode(old(State()), node)
      ensures forall nodes :: old(Contains(nodes)) ==> Contains(if s == Done then nodes + [node] else nodes)
    {
      hide LedgerHolds, AppendStore, NodeFits, NodeBytes, StoreHeaded, InUse;
      ghost var was := State();
      forall nodes | LedgerHolds(was, nodes)
        ensures LedgerHolds(AddNode(was, node).0, if AddNode(was, node).1 == Done then nodes + [node] else nodes)
      {
        AddNodeMeaning(was, nodes, node);
      }
      var appended := store.Append(NodeBytes(node));
      if appended.None? {
        return Failed(LedgerWrite);
      }
      latestBlockCache := Some(node);
      return Done;
    }

    method ReadBlock(id: nat) returns (r: Option<ChainNode>)
      requires store.Valid() && StoreHeaded(store.State())
      modifies this`latestBlockCache, store
      ensures (State(), r) == ReadNode(old(State()), id)
      ensures forall nodes :: old(Contains(nodes)) ==>
        Contains(nodes) && r == LedgerView.ReadBlock(LedgerView.Ledger(startingBlockId, nodes), id)
    {
      hide LedgerHolds, ReadStore, NodeFromBytes, StoreHeaded, InUse;
      ghost var was := State();
      forall nodes | LedgerHolds(was, nodes)
        ensures LedgerHolds(ReadNode(was, id).0, nodes)
        ensures ReadNode(was, id).1 == LedgerView.ReadBlock(LedgerView.Ledger(was.start, nodes), id)
      {
        ReadNodeMeaning(was, nodes, id);
      }
      var nextBlockId := GetNextBlockId();
      if store.totalBlockCount == 0 {
        return None;
      }
      if id >= nextBlockId {
        return None;
      }
      if id == nextBlockId - 1 && latestBlockCache.Some? {
        return latestBlockCache;
      }
      if id < startingBlockId {
        return None;
      }
      var data := store.Read(id - startingBlockId);
      if data.None? {
        return None;
      }
      r := NodeFromBytes(data.value);
      if r.Some? && id == nextBlockId - 1 {
        latestBlockCache := r;
      }
    }

    /** The first block not earlier than the timestamp, by halving the range of ids. */
    method FindBlockByTimestamp(timestamp: int, ghost nodes: seq<ChainNode>) returns (r: Option<ChainNode>)
      requires Contains(nodes)
      modifies this`latestBlockCache, store
      ensures Contains(nodes)
      ensures var l := LedgerView.Ledger(startingBlockId, nodes); var found := LedgerView.FindBlockByTimestamp(l, timestamp);
        r == if found.None? then None else LedgerView.ReadBlock(l, found.value)
    {
      hide LedgerHolds, ReadNode, StoreHeaded, InUse, NextId, LedgerView.FindFrom;
      ghost var l := LedgerView.Ledger(startingBlockId, nodes);
      UsableLedger(State(), nodes);
      var nextBlockId := GetNextBlockId();
      if startingBlockId >= nextBlockId {
        return None;
      }
      var low, high: nat := startingBlockId, nextBlockId;
      while low < high
        invariant startingBlockId <= low <= high <= nextBlockId == l.Next()
        invariant Contains(nodes)
        invariant LedgerView.FindFrom(l, timestamp, low, high) == LedgerView.FindFrom(l, timestamp, l.start, l.Next())
      {
        var mid := low + (high - low) / 2;
        UsableLedger(State(), nodes);
        LedgerView.FindFromStep(l, timestamp, low, high, mid);
        var node := ReadBlock(mid);
        if node.None? {
          return None;
        }
        if node.value.block.timestamp >= timestamp {
          high := mid;
        } else {
          low := mid + 1;
        }
      }
      if low >= nextBlockId {
        return None;
      }
      UsableLedger(State(), nodes);
      r := ReadBlock(low);
    }

    /** Checkpoints change only to an increasing list of existing blocks that agrees with the recorded one. */
    method UpdateCheckpoints(ids: seq<nat>) returns (ok: bool)
      modifies this`checkpointIds
      ensures ok <==> CheckpointsAccepted(old(State()), ids)
      ensures checkpointIds == if ok then ids else old(checkpointIds)
    {
      var i := 1;
      while i < |ids|
        invariant 1 <= i && (i <= |ids| || |ids| == 0)
        invariant StrictlyIncreasing(if i <= |ids| then ids[..i] else [])
      {
        if ids[i] <= ids[i - 1] {
          return false;
        }
        assert ids[..i + 1] == ids[..i] + [ids[i]];
        i := i + 1;
      }
      assert StrictlyIncreasing(ids) by {
        if ids != [] {
          assert ids[..|ids|] == ids;
        }
      }
      i := 0;
      while i < |ids| && i < |checkpointIds|
        invariant i <= |ids| && i <= |checkpointIds|
        invariant forall k | 0 <= k < i :: ids[k] == checkpointIds[k]
      {
        if checkpointIds[i] != ids[i] {
          return false;
        }
        i := i + 1;
      }
      var nextBlockId := GetNextBlockId();
      i := 0;
      while i < |ids|
        invariant i <= |ids| && forall k | 0 <= k < i :: ids[k] < nextBlockId
      {
        if ids[i] >= nextBlockId {
          return false;
        }
        i := i + 1;
      }
      checkpointIds := ids;
      return true;
    }
  }

  lemma UsableLedger(l: LedgerState, nodes: seq<ChainNode>)
    requires LedgerHolds(l, nodes)
    ensures StoreHeaded(l.store) && NextId(l) == l.start + |nodes|
    ensures exists blocks :: InUse(l.store, blocks)
  {
    hide InUse, StoreHeaded, NodeFits;
    HoldsHeaded(l, nodes);
  }
}
