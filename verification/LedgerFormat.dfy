/** The ledger over the block store: its first block id, its checkpoints, and a cache of the latest block. */
module LedgerFormat {
  import opened Numbers
  import opened Outcomes
  import opened ChainTypes
  import opened ChainCodec
  import opened DirDirFormat

  const MAX_DIR_COUNT := 1000
  const MAX_FILE_COUNT := 1000
  const MAX_FILE_SIZE := 0xA0_0000

  datatype LedgerState = LedgerState(
    start: nat, checkpointIds: seq<nat>, store: DirDir, cache: Option<ChainNode>)

  function NextId(l: LedgerState): nat {
    l.start + l.store.total
  }

  /** A new ledger; whatever the object had cached before stays cached. */
  function InitLedger(start: nat, cached: Option<ChainNode>): LedgerState {
    LedgerState(start, [], InitStore(MAX_DIR_COUNT, MAX_FILE_COUNT, MAX_FILE_SIZE).value, cached)
  }

  function AddNode(l: LedgerState, node: ChainNode): (LedgerState, Status)
    requires StoreHeaded(l.store) && NodeFits(node)
  {
    var appended := AppendStore(l.store, NodeBytes(node));
    if appended.1.None? then (l.(store := appended.0), Failed(LedgerWrite))
    else (l.(store := appended.0, cache := Some(node)), Done)
  }

  /** The latest block comes from the cache if there is one; every other one from the store. */
  function ReadNode(l: LedgerState, id: nat): (LedgerState, Option<ChainNode>)
    requires StoreHeaded(l.store)
  {
    if l.store.total == 0 then (l, None)
    else if id >= NextId(l) then (l, None)
    else if id == NextId(l) - 1 && l.cache.Some? then (l, l.cache)
    else if id < l.start then (l, None)
    else
      var read := ReadStore(l.store, id - l.start);
      var m := l.(store := read.0);
      if read.1.None? then (m, None)
      else
        match NodeFromBytes(read.1.value)
        case None => (m, None)
        case Some(node) => (if id == NextId(l) - 1 then m.(cache := Some(node)) else m, Some(node))
  }

  /** What the ledger leaves on disk. */
  datatype LedgerDisk = LedgerDisk(start: nat, checkpointIds: seq<nat>, store: StoreDisk)

  function SavedLedger(l: LedgerState): LedgerDisk {
    LedgerDisk(l.start, l.checkpointIds, SavedStore(l.store))
  }

  /** Mounting reads the last block, which also makes the store's next append safe. */
  function MountLedger(disk: LedgerDisk, cached: Option<ChainNode>): Option<LedgerState> {
    match MountStore(disk.store)
    case None => None
    case Some(store) =>
      var l := LedgerState(disk.start, disk.checkpointIds, store, cached);
      if store.total > 0 && StoreHeaded(store) then Some(ReadNode(l, NextId(l) - 1).0) else Some(l)
  }

  predicate StrictlyIncreasing(ids: seq<nat>) {
    forall i, j | 0 <= i < j < |ids| :: ids[i] < ids[j]
  }

  /** New checkpoints must increase, agree with the recorded ones as far as both go, and name existing blocks. */
  predicate CheckpointsAccepted(l: LedgerState, ids: seq<nat>) {
    && StrictlyIncreasing(ids)
    && (forall i | 0 <= i < |ids| && i < |l.checkpointIds| :: ids[i] == l.checkpointIds[i])
    && (forall i | 0 <= i < |ids| :: ids[i] < NextId(l))
  }
}
