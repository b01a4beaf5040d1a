/** Inputs on the failing side of the stores' conditions: each lemma gives a state that a few operations on a new store lead
    to. */
module StoreCounterexamples {
  import opened Numbers
  import opened Outcomes
  import opened Words
  import opened FileFormat
  import opened FileLaws
  import opened Ranges
  import opened FileDirFormat
  import opened FileDirLaws
  import opened DirDirFormat
  import opened DirDirLaws
  import opened ChainTypes
  import opened Archive
  import opened ChainCodec
  import opened StoreRuns
  import opened LedgerFormat
  import opened LedgerLaws

  const EMPTY: Bytes := []

  // ----- one file -----

  /** A file with one block, closed and mounted again: the next append loses its index. */
  lemma WriteLosesIndex() returns (s: FileState)
    ensures Represents(s, [EMPTY]) && CanFit(s, 0) && |s.file| >= HEADER_SIZE
    ensures !Represents(Write(s, EMPTY).0, [EMPTY, EMPTY])
  {
    hide Represents, Write, Mount;
    InitRepresents(MIN_MAX_SIZE);
    var blank := Init(MIN_MAX_SIZE).value;
    assert [] + [EMPTY] == [EMPTY];
    WriteRepresentsIff(blank, [], EMPTY);
    MountRepresents(Write(blank, EMPTY).0, [EMPTY], MIN_MAX_SIZE);
    s := Mount(Write(blank, EMPTY).0.file, MIN_MAX_SIZE).value;
    OneEmptyFrame(s);
    assert [EMPTY] + [EMPTY] == [EMPTY, EMPTY];
    WriteRepresentsIff(s, [EMPTY], EMPTY);
  }

  lemma OneEmptyFrame(s: FileState)
    requires Represents(s, [EMPTY])
    ensures s.currentSize == |s.file| == HEADER_SIZE + SIZE_PREFIX_BYTES
  {
    hide Header, Frame;
    assert [EMPTY][1..] == [] && Frames([EMPTY]) == Frame(EMPTY) + [];
  }

  // ----- one directory -----

  /** A directory for one file only, with one block in it: it denies a block that it would take, and truncating it to its
      own count drops the block. */
  lemma OneFileDirectory() returns (d: FileDir)
    ensures Stores(d, [EMPTY]) && DirReady(d) && Headed(d) && |d.files| == 1
    ensures d.maxFileCount == 1 && d.maxFileSize == MIN_MAX_SIZE
    ensures d.currentId in d.files && d.files[d.currentId].store.blockCount == 1
    ensures Underpromised(d, 0) && !DirCanFit(d, 0) && AppendBlock(d, EMPTY).1.Some?
    ensures RewindDir(d, 1).1 && Stores(RewindDir(d, 1).0, [])
  {
    hide Stores, Represents, Write, Headed, DirReady, RewindDir;
    var blank := InitDir(1, MIN_MAX_SIZE).value;
    InitStores(1, MIN_MAX_SIZE);
    StoresHeaded(blank, []);
    AppendBlockMeaning(blank, [], EMPTY);
    assert [] + [EMPTY] == [EMPTY];
    d := AppendBlock(blank, EMPTY).0;
    StoresHeaded(d, [EMPTY]);
    FirstBlock(blank);
    AppendBlockMeaning(d, [EMPTY], EMPTY);
    RewindDirMeaning(d, [EMPTY], 1);
  }

  lemma FirstBlock(d: FileDir)
    requires InitDir(1, MIN_MAX_SIZE) == Some(d)
    ensures Headed(d)
    ensures var e := AppendBlock(d, EMPTY).0;
      && e.maxFileCount == 1 && e.maxFileSize == MIN_MAX_SIZE && |e.files| == 1 && e.currentId in e.files
      && CurrentFits(e, 0) && e.files[e.currentId].store.blockCount == 1
  {
    hide Frame, WithCount, Header;
  }

  /** A new directory admits a block of the size limit and then refuses it. */
  lemma AdmitsTooMuch(block: Bytes) returns (d: FileDir)
    requires |block| == MIN_MAX_SIZE
    ensures Stores(d, []) && DirReady(d) && Headed(d)
    ensures Overpromised(d, |block|) && DirCanFit(d, |block|) && AppendBlock(d, block).1 == None
  {
    hide Stores, DirReady, Headed;
    d := InitDir(1, MIN_MAX_SIZE).value;
    InitStores(1, MIN_MAX_SIZE);
    StoresHeaded(d, []);
    AppendBlockMeaning(d, [], block);
  }

  // ----- the top store -----

  /** The first block of a new store goes into its root. */
  lemma FirstInRoot(maxDirCount: nat) returns (s: DirDir)
    requires maxDirCount > 0
    ensures RootHolds(s, [EMPTY]) && StoreHeaded(s) && StoreReady(s) && s.maxDirCount == maxDirCount
    ensures s.maxFileCount == 1 && s.maxFileSize == MIN_MAX_SIZE && !DirCanFit(s.root.value, 0)
    ensures s.root.value.currentId in s.root.value.files
    ensures s.root.value.files[s.root.value.currentId].store.blockCount == 1
  {
    hide Stores, AppendBlock, Headed, DirReady, RewindDir;
    var d := OneFileDirectory();
    s := DirDir(maxDirCount, 1, MIN_MAX_SIZE, Some(d), map[], [], 0, 1);
  }

  /** One subdirectory allowed: the second block relocates the root and is refused, and then an append would lose the index of
      the relocated file. */
  lemma RelocationLosesIndex() returns (s: DirDir)
    ensures Keeps(s, [EMPTY]) && StoreHeaded(s) && s.maxDirCount == 1 && StoreReady(s)
    ensures Keeps(AppendStore(s, EMPTY).0, [EMPTY]) && !StoreReady(AppendStore(s, EMPTY).0)
  {
    hide Stores, AppendStore, DirsHold, DirCanFit, StoreHeaded, StoreReady;
    s := FirstInRoot(1);
    LoneDirectoryIff(s, [EMPTY], EMPTY);
  }

  /** Two subdirectories allowed: the second block relocates the root. Truncating the store to its own count drops both
      blocks, and what it saves then cannot be mounted. */
  lemma TruncatedStoreIsLost() returns (s: DirDir)
    ensures Keeps(s, [EMPTY, EMPTY]) && StoreHeaded(s) && StoreReady(s)
    ensures RewindStore(s, 2).1 && Keeps(RewindStore(s, 2).0, [])
    ensures MountStore(SavedStore(RewindStore(s, 2).0)) == None
  {
    hide Stores, AppendStore, DirsHold, DirCanFit, StoreHeaded, StoreReady, Keeps, RewindStore, MountStore, SavedStore;
    var first := FirstInRoot(2);
    RootKeeps(first, [EMPTY]);
    SecondAccepted(first);
    AppendStoreMeaning(first, [EMPTY], EMPTY);
    assert [EMPTY] + [EMPTY] == [EMPTY, EMPTY];
    s := AppendStore(first, EMPTY).0;
    KeepsHeaded(s, [EMPTY, EMPTY]);
    SecondRelocates(first);
    RewindStoreMeaning(s, [EMPTY, EMPTY], 2);
    ClearedHasNothing(s);
    MountStoreIff(RewindStore(s, 2).0, []);
  }

  lemma RootKeeps(s: DirDir, blocks: Blocks)
    requires RootHolds(s, blocks)
    ensures Keeps(s, blocks)
  {
  }

  lemma SecondAccepted(s: DirDir)
    requires RootHolds(s, [EMPTY]) && !DirCanFit(s.root.value, 0) && s.maxDirCount == 2
    ensures StoreAccepts(s, 0)
  {
  }

  lemma SecondRelocates(s: DirDir)
    requires RootHolds(s, [EMPTY]) && StoreHeaded(s) && !DirCanFit(s.root.value, 0)
    ensures AppendStore(s, EMPTY).0.root == None
  {
    hide Stores, DirCanFit, Reopened, AppendBlock;
    RelocatedKeeps(s, [EMPTY]);
  }

  lemma ClearedHasNothing(s: DirDir)
    requires Keeps(s, [EMPTY, EMPTY]) && StoreHeaded(s) && s.root == None
    ensures RewindStore(s, 2).0.root == None && RewindStore(s, 2).0.dirs == map[]
  {
    hide Stores, Laid, Flat;
    var parts :| DirsHold(s, parts) && Flat(parts) == [EMPTY, EMPTY];
    DirsShape(s, parts);
    var i := FindMeaning(DirRanges(s.dirs), s.order, parts, 2);
  }

  // ----- the ledger -----

  const EMPTY_BLOCK := Block(0, 0, [], [], 0, 0, 0, 0)

  lemma {:induction false} FieldsBound(fields: seq<Shape>, ds: seq<Data>)
    requires HaveShapes(fields, ds)
    requires forall i | 0 <= i < |fields| :: |ds| == |fields| && HasShape(fields[i], ds[i]) && |Pack(fields[i], ds[i])| <= 8
    ensures |PackFields(fields, ds)| <= 8 * |fields|
    decreases |fields|
  {
    hide Pack, HasShape;
    if fields != [] {
      assert forall i | 0 < i < |fields| :: fields[i] == fields[1..][i - 1] && ds[i] == ds[1..][i - 1];
      FieldsBound(fields[1..], ds[1..]);
    }
  }

  lemma EmptyBlockPacked()
    ensures BlockFits(EMPTY_BLOCK) && |BlockBytes(EMPTY_BLOCK)| <= 66
  {
    hide BigEndian, PackFields;
    BlockShaped(EMPTY_BLOCK);
    var ds := BlockData(EMPTY_BLOCK).items;
    EachField(BLOCK_FIELDS, ds);
    forall i | 0 <= i < 8
      ensures HasShape(BLOCK_FIELDS[i], ds[i]) && |Pack(BLOCK_FIELDS[i], ds[i])| <= 8
    {
      BlockFieldsShaped(EMPTY_BLOCK, i);
    }
    FieldsBound(BLOCK_FIELDS, ds);
  }

  /** A ledger with one block, mounted by an object that still caches another: it answers with that other block. */
  lemma StaleCacheAnswersWrong() returns (l: LedgerState, cached: ChainNode)
    ensures LedgerHolds(l, [ChainNode(EMPTY_BLOCK, [])]) && cached != ChainNode(EMPTY_BLOCK, [])
    ensures MountLedger(SavedLedger(l), Some(cached)).Some?
    ensures StoreHeaded(MountLedger(SavedLedger(l), Some(cached)).value.store)
    ensures LastOf(MountLedger(SavedLedger(l), Some(cached)).value) != Some(ChainNode(EMPTY_BLOCK, []))
  {
    hide LedgerHolds, StoreHeaded, MountLedger, SavedLedger, AddNode, NodeBytes, BlockBytes, LastOf, StoreAccepts;
    var node := ChainNode(EMPTY_BLOCK, []);
    EmptyNodeAccepted(node);
    InitHolds(0);
    var start := InitLedger(0, None);
    HoldsHeaded(start, []);
    AddNodeMeaning(start, [], node);
    l, cached := AddNode(start, node).0, ChainNode(EMPTY_BLOCK, [1]);
    assert [] + [node] == [node];
    StaleCacheIff(l, [node], Some(cached));
  }

  lemma EmptyNodeAccepted(node: ChainNode)
    requires node == ChainNode(EMPTY_BLOCK, [])
    ensures NodeFits(node) && StoreAccepts(InitLedger(0, None).store, |NodeBytes(node)|)
  {
    hide BlockBytes;
    EmptyBlockPacked();
    EmptyNodePacked(node);
  }

  lemma EmptyNodePacked(node: ChainNode)
    requires node == ChainNode(EMPTY_BLOCK, []) && NodeFits(node) && |BlockBytes(EMPTY_BLOCK)| <= 66
    ensures |NodeBytes(node)| <= 82
  {
    hide BlockBytes, BigEndian;
    var fields, ds := [Text, Text], RawData(BlockBytes(node.block), node.hash).items;
    RawShaped(BlockBytes(node.block), node.hash);
    EachField(fields, ds);
    assert PackFields(fields, ds) == Pack(Text, ds[0]) + PackFields(fields[1..], ds[1..]);
    assert PackFields(fields[1..], ds[1..]) == Pack(Text, ds[1]) + PackFields(fields[1..][1..], ds[1..][1..]);
  }
}
