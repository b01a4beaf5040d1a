/** The ledger reads back exactly what was added: through the cache, the store and a fresh mount. */
module LedgerLaws {
  import opened Numbers
  import opened Outcomes
  import opened ChainTypes
  import opened Archive
  import opened ChainCodec
  import opened FileFormat
  import opened Ranges
  import opened FileDirFormat
  import opened DirDirFormat
  import opened DirDirLaws
  import opened StoreRuns
  import opened LedgerFormat
  import LedgerView

  predicate AllFit(nodes: seq<ChainNode>) {
    forall i | 0 <= i < |nodes| :: NodeFits(nodes[i]) && |NodeBytes(nodes[i])| <= MAX_FILE_SIZE
  }

  function Packed(nodes: seq<ChainNode>): (r: Blocks)
    requires AllFit(nodes)
    ensures |r| == |nodes|
  {
    seq(|nodes|, i requires 0 <= i < |nodes| => NodeBytes(nodes[i]))
  }

  /** The top index on disk leads back to the blocks: without truncation the subdirectories never become empty again. */
  predicate Mountable(s: DirDir) {
    s.root.Some? || s.dirs != map[]
  }

  lemma StaysMountable(s: DirDir, data: Bytes, index: nat)
    requires StoreHeaded(s) && Mountable(s)
    ensures Mountable(AppendStore(s, data).0) && Mountable(ReadStore(s, index).0)
  {
    hide AppendBlock, ReadBlock, Reopened, Headed, DirRanges, Find, DirCanFit;
    ActiveKeeps(s, |data|);
    if Relocated(s).Some? {
      ActiveKeeps(Relocated(s).value, |data|);
    }
  }

  lemma ActiveKeeps(s: DirDir, size: nat)
    ensures s.dirs != map[] ==> ActiveDir(s, size).0.dirs != map[]
  {
    hide DirCanFit, InitDir;
  }

  lemma RemountedMountable(s: DirDir)
    requires MountStore(SavedStore(s)).Some?
    ensures Mountable(MountStore(SavedStore(s)).value)
  {
    hide MountDir, DirRanges, Count, SavedStore;
    var disk := SavedStore(s);
    if disk.entries != [] {
      DirsMounted(disk, |disk.entries|);
    }
  }

  lemma DirsMounted(disk: StoreDisk, n: nat)
    requires 0 < n <= |disk.entries| && MountDirs(disk, n).Some?
    ensures MountDirs(disk, n).value != map[]
  {
    hide MountDir;
    assert disk.entries[n - 1].0 in MountDirs(disk, n).value;
  }

  /** The ledger holds these nodes, its cache is the last of them or empty, and its next append is safe. */
  ghost predicate LedgerHolds(l: LedgerState, nodes: seq<ChainNode>) {
    && AllFit(nodes)
    && InUse(l.store, Packed(nodes)) && l.store.maxFileSize == MAX_FILE_SIZE && Mountable(l.store)
    && (l.cache.Some? ==> nodes != [] && l.cache.value == nodes[|nodes| - 1])
  }

  lemma HoldsHeaded(l: LedgerState, nodes: seq<ChainNode>)
    requires LedgerHolds(l, nodes)
    ensures StoreHeaded(l.store) && l.store.total == |nodes|
  {
    hide Keeps, StoreReady, StoreHeaded, NodeFits, NodeBytes;
    KeepsHeaded(l.store, Packed(nodes));
  }

  lemma InitHolds(start: nat)
    ensures LedgerHolds(InitLedger(start, None), [])
  {
    hide Keeps, StoreReady;
    InitKeeps(MAX_DIR_COUNT, MAX_FILE_COUNT, MAX_FILE_SIZE);
    assert Packed([]) == [];
  }

  /** Everything that fits a block file is within the reader's string limit. */
  lemma FileNodesReadable(node: ChainNode)
    requires NodeFits(node) && |NodeBytes(node)| <= MAX_FILE_SIZE
    ensures NodeReadable(node)
  {
    hide BlockFits, BlockBytes;
    var data := BlockBytes(node.block);
    RawShaped(data, node.hash);
    SmallWhenShort(RAW_BLOCK, RawData(data, node.hash));
  }

  lemma ReadsBack(node: ChainNode)
    requires NodeFits(node) && |NodeBytes(node)| <= MAX_FILE_SIZE
    ensures NodeFromBytes(NodeBytes(node)) == Some(node)
  {
    hide NodeFits, NodeBytes, NodeFromBytes, NodeReadable;
    FileNodesReadable(node);
    NodeRoundTrip(node);
  }

  lemma PackedSnoc(nodes: seq<ChainNode>, node: ChainNode)
    requires AllFit(nodes) && NodeFits(node) && |NodeBytes(node)| <= MAX_FILE_SIZE
    ensures AllFit(nodes + [node]) && Packed(nodes + [node]) == Packed(nodes) + [NodeBytes(node)]
  {
    hide NodeFits, NodeBytes;
  }

  /** An added block is the ledger's new last block; a refused one changes nothing. */
  lemma AddNodeMeaning(l: LedgerState, nodes: seq<ChainNode>, node: ChainNode)
    requires LedgerHolds(l, nodes) && StoreHeaded(l.store) && NodeFits(node)
    ensures AddNode(l, node).1 == Done <==> StoreAccepts(l.store, |NodeBytes(node)|)
    ensures LedgerHolds(AddNode(l, node).0, if AddNode(l, node).1 == Done then nodes + [node] else nodes)
    ensures AddNode(l, node).0.start == l.start
  {
    hide Keeps, StoreReady, StoreHeaded, NodeFits, NodeBytes, AppendStore, StoreAccepts, Packed;
    var data := NodeBytes(node);
    AppendStoreMeaning(l.store, Packed(nodes), data);
    LimitsKept(l.store, AppendOp(data));
    StaysMountable(l.store, data, 0);
    if StoreAccepts(l.store, |data|) {
      AcceptedFits(l.store, Packed(nodes), |data|);
      PackedSnoc(nodes, node);
    }
  }

  /** Reading block `start + i` returns exactly the `i`-th node added, whether it comes from the cache or the store;
      every other id is refused. This is the ledger the chain sees. */
  lemma ReadNodeMeaning(l: LedgerState, nodes: seq<ChainNode>, id: nat)
    requires LedgerHolds(l, nodes) && StoreHeaded(l.store)
    ensures ReadNode(l, id).1 == LedgerView.ReadBlock(LedgerView.Ledger(l.start, nodes), id)
    ensures LedgerHolds(ReadNode(l, id).0, nodes) && ReadNode(l, id).0.start == l.start
  {
    hide Keeps, StoreReady, StoreHeaded, NodeFits, NodeBytes, NodeFromBytes, ReadStore;
    HoldsHeaded(l, nodes);
    if l.start <= id < NextId(l) && !(id == NextId(l) - 1 && l.cache.Some?) {
      var i := id - l.start;
      ReadStoreMeaning(l.store, Packed(nodes), i);
      LimitsKept(l.store, ReadOp(i));
      StaysMountable(l.store, [], i);
      ReadsBack(nodes[i]);
    }
  }

  predicate CacheTrue(cached: Option<ChainNode>, nodes: seq<ChainNode>) {
    cached.None? || (nodes != [] && cached.value == nodes[|nodes| - 1])
  }

  lemma MountedStore(l: LedgerState, nodes: seq<ChainNode>, cached: Option<ChainNode>)
    requires LedgerHolds(l, nodes)
    ensures MountStore(SavedLedger(l).store).Some?
    ensures var s := MountStore(SavedLedger(l).store).value;
      && Keeps(s, Packed(nodes)) && StoreHeaded(s) && s.total == |nodes| && s.maxFileSize == MAX_FILE_SIZE && s.maxDirCount > 1
      && (nodes == [] ==> StoreReady(s))
      && (nodes != [] ==> StoreReady(ReadStore(s, |nodes| - 1).0))
  {
    hide Keeps, StoreReady, StoreHeaded, NodeFits, NodeBytes, MountStore, SavedStore, ReadStore;
    MountStoreIff(l.store, Packed(nodes));
    var s := MountStore(SavedStore(l.store)).value;
    KeepsHeaded(s, Packed(nodes));
    ReadLastMakesStoreReady(s, Packed(nodes));
  }

  /** The first read after mounting, of the last block. */
  lemma FirstRead(l: LedgerState, nodes: seq<ChainNode>)
    requires AllFit(nodes) && nodes != [] && l.cache.None?
    requires Keeps(l.store, Packed(nodes)) && StoreHeaded(l.store) && l.store.total == |nodes| && l.store.maxDirCount > 1
    requires l.store.maxFileSize == MAX_FILE_SIZE && Mountable(l.store) && StoreReady(ReadStore(l.store, |nodes| - 1).0)
    ensures LedgerHolds(ReadNode(l, NextId(l) - 1).0, nodes) && ReadNode(l, NextId(l) - 1).0.start == l.start
  {
    hide Keeps, StoreReady, StoreHeaded, NodeFits, NodeBytes, NodeFromBytes, ReadStore, Mountable;
    var last := |nodes| - 1;
    assert Packed(nodes)[last] == NodeBytes(nodes[last]);
    ReadStoreMeaning(l.store, Packed(nodes), last);
    LimitsKept(l.store, ReadOp(last));
    StaysMountable(l.store, [], last);
    ReadsBack(nodes[last]);
    hide Packed, AllFit;
  }

  /** Mounting with a fresh object gives back a ledger that holds the same nodes. */
  lemma MountLedgerMeaning(l: LedgerState, nodes: seq<ChainNode>)
    requires LedgerHolds(l, nodes)
    ensures MountLedger(SavedLedger(l), None).Some?
    ensures LedgerHolds(MountLedger(SavedLedger(l), None).value, nodes)
    ensures MountLedger(SavedLedger(l), None).value.start == l.start
  {
    hide Keeps, StoreReady, StoreHeaded, NodeFits, NodeBytes, MountStore, SavedStore, ReadStore, ReadNode, Mountable, Packed;
    MountedStore(l, nodes, None);
    RemountedMountable(l.store);
    var m := LedgerState(l.start, l.checkpointIds, MountStore(SavedStore(l.store)).value, None);
    if nodes != [] {
      FirstRead(m, nodes);
    }
  }

  /** An object that still caches a block from before answers for the last block from that cache, so after mounting again
      it reads the ledger's last block right exactly when the cache was empty or already held that block. */
  lemma StaleCacheIff(l: LedgerState, nodes: seq<ChainNode>, cached: Option<ChainNode>)
    requires LedgerHolds(l, nodes) && nodes != []
    ensures MountLedger(SavedLedger(l), cached).Some? && StoreHeaded(MountLedger(SavedLedger(l), cached).value.store)
    ensures LastOf(MountLedger(SavedLedger(l), cached).value) == Some(nodes[|nodes| - 1]) <==> CacheTrue(cached, nodes)
  {
    hide LedgerHolds, StoreHeaded, ReadNode, MountLedger, SavedLedger;
    if cached.None? {
      MountLedgerMeaning(l, nodes);
      var m := MountLedger(SavedLedger(l), None).value;
      HoldsHeaded(m, nodes);
      ReadNodeMeaning(m, nodes, m.start + |nodes| - 1);
    } else {
      StaleCacheAnswers(l, nodes, cached);
    }
  }

  /** What the ledger answers for its last block. */
  function LastOf(l: LedgerState): Option<ChainNode>
    requires StoreHeaded(l.store)
  {
    if l.store.total == 0 then None else ReadNode(l, NextId(l) - 1).1
  }

  lemma CacheAnswers(l: LedgerState)
    requires StoreHeaded(l.store) && l.store.total > 0 && l.cache.Some?
    ensures ReadNode(l, NextId(l) - 1) == (l, l.cache)
  {
    hide ReadStore, NodeFromBytes, StoreHeaded;
  }

  lemma StaleCacheAnswers(l: LedgerState, nodes: seq<ChainNode>, cached: Option<ChainNode>)
    requires LedgerHolds(l, nodes) && nodes != [] && cached.Some?
    ensures MountLedger(SavedLedger(l), cached).Some? && StoreHeaded(MountLedger(SavedLedger(l), cached).value.store)
    ensures LastOf(MountLedger(SavedLedger(l), cached).value) == cached
  {
    hide LedgerHolds, StoreHeaded, MountStore, SavedStore, ReadNode, StoreReady, Keeps, ReadStore;
    MountedStore(l, nodes, cached);
    CacheAnswers(LedgerState(l.start, l.checkpointIds, MountStore(SavedStore(l.store)).value, cached));
  }

  // ----- whole runs -----

  datatype LedgerOp = AddOp(node: ChainNode) | FetchOp(id: nat) | MountOp

  function LedgerStep(l: LedgerState, op: LedgerOp): Option<LedgerState>
    requires StoreHeaded(l.store) && (op.AddOp? ==> NodeFits(op.node))
  {
    match op
    case AddOp(node) => Some(AddNode(l, node).0)
    case FetchOp(id) => Some(ReadNode(l, id).0)
    case MountOp => MountLedger(SavedLedger(l), None)
  }

  function NodesStep(nodes: seq<ChainNode>, op: LedgerOp, added: bool): seq<ChainNode> {
    if op.AddOp? && added then nodes + [op.node] else nodes
  }

  predicate Added(l: LedgerState, op: LedgerOp)
    requires StoreHeaded(l.store) && (op.AddOp? ==> NodeFits(op.node))
  {
    op.AddOp? && AddNode(l, op.node).1 == Done
  }

  predicate OpsFit(ops: seq<LedgerOp>) {
    forall i | 0 <= i < |ops| :: ops[i].AddOp? ==> NodeFits(ops[i].node)
  }

  lemma LedgerStepHolds(l: LedgerState, nodes: seq<ChainNode>, op: LedgerOp)
    requires LedgerHolds(l, nodes) && StoreHeaded(l.store) && (op.AddOp? ==> NodeFits(op.node))
    ensures LedgerStep(l, op).Some? && LedgerStep(l, op).value.start == l.start
    ensures LedgerHolds(LedgerStep(l, op).value, NodesStep(nodes, op, Added(l, op)))
  {
    hide LedgerHolds, StoreHeaded, NodeFits, AddNode, ReadNode, MountLedger, SavedLedger;
    match op {
      case AddOp(node) => AddNodeMeaning(l, nodes, node);
      case FetchOp(id) => ReadNodeMeaning(l, nodes, id);
      case MountOp => MountLedgerMeaning(l, nodes);
    }
  }

  /** The ledger and the nodes added after the operations; no mount fails. */
  ghost function LedgerRun(l: LedgerState, nodes: seq<ChainNode>, ops: seq<LedgerOp>): (LedgerState, seq<ChainNode>)
    requires LedgerHolds(l, nodes) && OpsFit(ops)
    decreases |ops|
  {
    if ops == [] then (l, nodes)
    else
      HoldsHeaded(l, nodes);
      LedgerStepHolds(l, nodes, ops[0]);
      LedgerRun(LedgerStep(l, ops[0]).value, NodesStep(nodes, ops[0], Added(l, ops[0])), ops[1..])
  }

  /** After any run of additions, reads and remounts, block `start + i` reads back as the `i`-th node added. */
  lemma {:induction false} LedgerReadsBack(l: LedgerState, nodes: seq<ChainNode>, ops: seq<LedgerOp>, id: nat)
    requires LedgerHolds(l, nodes) && OpsFit(ops)
    ensures var (end, list) := LedgerRun(l, nodes, ops);
      && LedgerHolds(end, list) && StoreHeaded(end.store) && end.start == l.start
      && ReadNode(end, id).1 == LedgerView.ReadBlock(LedgerView.Ledger(l.start, list), id)
    decreases |ops|
  {
    hide LedgerHolds, StoreHeaded, ReadNode, LedgerStep, NodesStep, NodeFits, Added;
    HoldsHeaded(l, nodes);
    if ops == [] {
      ReadNodeMeaning(l, nodes, id);
    } else {
      LedgerStepHolds(l, nodes, ops[0]);
      LedgerReadsBack(LedgerStep(l, ops[0]).value, NodesStep(nodes, ops[0], Added(l, ops[0])), ops[1..], id);
    }
  }
}
