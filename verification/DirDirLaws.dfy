/** The top store behaves as one list of blocks through file rollover, relocation of the root, truncation and remount. */
module DirDirLaws {
  import opened Numbers
  import opened Outcomes
  import opened FileFormat
  import opened FileLaws
  import opened Ranges
  import opened FileDirFormat
  import opened FileDirLaws
  import opened DirDirFormat

  predicate SameLimits(d: FileDir, s: DirDir) {
    d.maxFileCount == s.maxFileCount && d.maxFileSize == s.maxFileSize
  }

  /** Subdirectory number `i` in the order holds part `i`. */
  ghost predicate DirHolds(s: DirDir, parts: seq<Blocks>, i: nat)
    requires i < |s.order| == |parts|
  {
    && s.order[i] in s.dirs && s.order[i] <= s.currentId
    && Stores(s.dirs[s.order[i]].store, parts[i]) && SameLimits(s.dirs[s.order[i]].store, s)
  }

  predicate Configured(s: DirDir) {
    s.maxDirCount > 0 && s.maxFileCount > 0 && s.maxFileSize >= MIN_MAX_SIZE
  }

  ghost predicate DirsHold(s: DirDir, parts: seq<Blocks>) {
    && s.root == None && Configured(s)
    && Laid(DirRanges(s.dirs), s.order, parts) && |s.order| == |parts|
    && |s.dirs| <= s.maxDirCount
    && s.total == |Flat(parts)|
    && forall i: nat | i < |parts| :: DirHolds(s, parts, i)
  }

  ghost predicate RootHolds(s: DirDir, blocks: Blocks) {
    && s.root.Some? && Configured(s)
    && Stores(s.root.value, blocks) && SameLimits(s.root.value, s)
    && s.dirs == map[] && s.order == [] && s.currentId == 0 && s.total == |blocks|
  }

  /** The store stands for this list of blocks. */
  ghost predicate Keeps(s: DirDir, blocks: Blocks) {
    RootHolds(s, blocks) || exists parts :: DirsHold(s, parts) && Flat(parts) == blocks
  }

  /** The next append keeps the bookkeeping of the file it would go to right. */
  predicate StoreReady(s: DirDir) {
    && (s.root.Some? ==> DirReady(s.root.value))
    && (s.root.None? && s.currentId in s.dirs ==> DirReady(s.dirs[s.currentId].store))
  }

  lemma DirsShape(s: DirDir, parts: seq<Blocks>)
    requires DirsHold(s, parts)
    ensures Laid(DirRanges(s.dirs), s.order, parts) && |s.order| == |parts| == |s.dirs| <= s.maxDirCount
    ensures s.root == None && Configured(s) && s.total == |Flat(parts)|
    ensures Increasing(s.order) && Elements(s.order) == s.dirs.Keys
    ensures forall id | id in s.dirs :: 0 < id <= s.currentId
  {
    hide Stores, Flat, Laid;
    LaidLength(DirRanges(s.dirs), s.order, parts);
    assert |s.dirs| == |s.dirs.Keys| && |DirRanges(s.dirs)| == |DirRanges(s.dirs).Keys|;
    forall id | id in s.dirs ensures 0 < id <= s.currentId {
      var i := LaidPlace(DirRanges(s.dirs), s.order, parts, id);
      assert DirHolds(s, parts, i);
    }
  }

  lemma DirOf(s: DirDir, parts: seq<Blocks>, i: nat)
    requires DirsHold(s, parts) && i < |parts|
    ensures |s.order| == |parts| && s.order[i] in s.dirs && 0 < s.order[i] <= s.currentId
    ensures var slot := s.dirs[s.order[i]];
      && Stores(slot.store, parts[i]) && SameLimits(slot.store, s) && Headed(slot.store)
      && slot.start == |Flat(parts[..i])| && slot.store.total == |parts[i]|
  {
    hide Stores, Flat, Laid, Headed;
    assert DirHolds(s, parts, i);
    LaidSlot(DirRanges(s.dirs), s.order, parts, i);
    StoresHeaded(s.dirs[s.order[i]].store, parts[i]);
  }

  lemma KeepsHeaded(s: DirDir, blocks: Blocks)
    requires Keeps(s, blocks)
    ensures StoreHeaded(s) && s.total == |blocks| && Configured(s)
  {
    hide Stores, Headed, Flat, DirsHold;
    if RootHolds(s, blocks) {
      StoresHeaded(s.root.value, blocks);
    } else {
      var parts :| DirsHold(s, parts) && Flat(parts) == blocks;
      DirsShape(s, parts);
      forall id | id in s.dirs ensures Headed(s.dirs[id].store) {
        var i := LaidPlace(DirRanges(s.dirs), s.order, parts, id);
        DirOf(s, parts, i);
      }
    }
  }

  lemma InitKeeps(maxDirCount: nat, maxFileCount: nat, maxFileSize: FileLimit)
    requires InitStore(maxDirCount, maxFileCount, maxFileSize).Some?
    ensures Keeps(InitStore(maxDirCount, maxFileCount, maxFileSize).value, [])
    ensures StoreReady(InitStore(maxDirCount, maxFileCount, maxFileSize).value)
  {
    hide Stores, DirReady;
    InitStores(maxFileCount, maxFileSize);
    var s := InitStore(maxDirCount, maxFileCount, maxFileSize).value;
    assert RootHolds(s, []);
  }

  // ----- replacing one subdirectory -----

  lemma WithDirShape(s: DirDir, id: nat, store: FileDir)
    requires id in s.dirs
    ensures var e := WithDir(s, id, store);
      && e == s.(dirs := e.dirs) && e.dirs.Keys == s.dirs.Keys && |e.dirs| == |s.dirs|
      && (forall k | k in s.dirs :: e.dirs[k] == if k == id then s.dirs[k].(store := store) else s.dirs[k])
      && DirRanges(e.dirs) == DirRanges(s.dirs)[id := Range(s.dirs[id].start, store.total)]
  {
    var e := WithDir(s, id, store);
    assert e.dirs.Keys == s.dirs.Keys;
    assert |e.dirs| == |e.dirs.Keys| && |s.dirs| == |s.dirs.Keys|;
  }

  lemma DirRangeAt(s: DirDir, id: nat)
    requires id in s.dirs
    ensures id in DirRanges(s.dirs) && DirRanges(s.dirs)[id] == Range(s.dirs[id].start, s.dirs[id].store.total)
  {
  }

  lemma DirReplacedAt(s: DirDir, parts: seq<Blocks>, n: nat, store: FileDir, part: Blocks, total: nat, j: nat)
    requires DirsHold(s, parts) && |s.order| == |parts| && n < |parts| && s.order[n] in s.dirs && j < |parts|
    requires Stores(store, part) && SameLimits(store, s)
    ensures |WithDir(s, s.order[n], store).order| == |parts|
    ensures DirHolds(WithDir(s, s.order[n], store).(total := total), parts[n := part], j)
  {
    hide Stores, Flat, WithDir, DirRanges, DirsHold;
    WithDirShape(s, s.order[n], store);
    DirsShape(s, parts);
    DirOf(s, parts, j);
  }

  /** A subdirectory may change inwardly as long as it stands for the same part. */
  lemma DirReplaced(s: DirDir, parts: seq<Blocks>, n: nat, store: FileDir)
    requires DirsHold(s, parts) && n < |parts| == |s.order| && s.order[n] in s.dirs
    requires Stores(store, parts[n]) && SameLimits(store, s)
    ensures DirsHold(WithDir(s, s.order[n], store), parts)
  {
    hide Stores, Flat, WithDir, DirRanges, Laid, DirHolds;
    WithDirShape(s, s.order[n], store);
    DirOf(s, parts, n);
    StoresHeaded(store, parts[n]);
    DirRangeAt(s, s.order[n]);
    assert DirRanges(s.dirs)[s.order[n] := DirRanges(s.dirs)[s.order[n]]] == DirRanges(s.dirs);
    assert parts[n := parts[n]] == parts;
    var e := WithDir(s, s.order[n], store);
    assert e.(total := s.total) == e;
    forall j: nat | j < |parts| ensures DirHolds(e, parts, j) {
      DirReplacedAt(s, parts, n, store, parts[n], s.total, j);
    }
  }

  /** The last subdirectory may change together with its part. */
  lemma LastDirReplaced(s: DirDir, parts: seq<Blocks>, n: nat, store: FileDir, part: Blocks)
    requires DirsHold(s, parts) && |s.order| == |parts| == n + 1 && s.order[n] in s.dirs
    requires Stores(store, part) && SameLimits(store, s)
    ensures DirsHold(WithDir(s, s.order[n], store).(total := |Flat(parts[n := part])|), parts[n := part])
  {
    hide Stores, Flat, WithDir, DirRanges, Laid, DirHolds;
    var changed := parts[n := part];
    var e := WithDir(s, s.order[n], store).(total := |Flat(changed)|);
    WithDirShape(s, s.order[n], store);
    StoresHeaded(store, part);
    DirRangeAt(s, s.order[n]);
    LaidLast(DirRanges(s.dirs), s.order, parts, n, part);
    forall j: nat | j < |changed| ensures DirHolds(e, changed, j) {
      DirReplacedAt(s, parts, n, store, part, |Flat(changed)|, j);
    }
  }

  // ----- reading -----

  lemma ReadKeepsLimits(d: FileDir, index: nat)
    requires Headed(d)
    ensures var e := ReadBlock(d, index).0;
      e.maxFileCount == d.maxFileCount && e.maxFileSize == d.maxFileSize && e.currentId == d.currentId && e.total == d.total
  {
    hide Find, Read;
  }

  /** Reading returns exactly the block of the list, leaves the list alone, and nothing past the end is found. */
  lemma ReadStoreMeaning(s: DirDir, blocks: Blocks, index: nat)
    requires Keeps(s, blocks) && StoreHeaded(s)
    ensures ReadStore(s, index).1 == if index < |blocks| then Some(blocks[index]) else None
    ensures Keeps(ReadStore(s, index).0, blocks) && (StoreReady(s) ==> StoreReady(ReadStore(s, index).0))
  {
    hide Stores, Flat, Find, ReadBlock, Headed, DirsHold, DirReady;
    if RootHolds(s, blocks) {
      StoresHeaded(s.root.value, blocks);
      ReadBlockMeaning(s.root.value, blocks, index);
      ReadKeepsLimits(s.root.value, index);
      if index < |blocks| {
        assert RootHolds(ReadStore(s, index).0, blocks);
      }
    } else {
      var parts :| DirsHold(s, parts) && Flat(parts) == blocks;
      ReadDirs(s, parts, index);
    }
  }

  lemma ReadDirs(s: DirDir, parts: seq<Blocks>, index: nat)
    requires DirsHold(s, parts) && StoreHeaded(s)
    ensures ReadStore(s, index).1 == if index < |Flat(parts)| then Some(Flat(parts)[index]) else None
    ensures DirsHold(ReadStore(s, index).0, parts) && (StoreReady(s) ==> StoreReady(ReadStore(s, index).0))
  {
    hide Stores, Flat, Find, ReadBlock, Headed, DirsHold, DirReady, DirRanges;
    DirsShape(s, parts);
    var i := FindMeaning(DirRanges(s.dirs), s.order, parts, index);
    if index < |Flat(parts)| {
      DirOf(s, parts, i);
      var k := index - |Flat(parts[..i])|;
      var store := s.dirs[s.order[i]].store;
      ReadBlockMeaning(store, parts[i], k);
      ReadKeepsLimits(store, k);
      FlatAt(parts, i, k);
      DirReplaced(s, parts, i, ReadBlock(store, k).0);
    }
  }

  // ----- appending -----

  lemma CurrentDirIsLast(s: DirDir, parts: seq<Blocks>)
    requires DirsHold(s, parts) && s.currentId in s.dirs
    ensures |parts| > 0 && |s.order| == |parts| && s.order[|parts| - 1] == s.currentId
  {
    hide Stores, Flat, Laid, DirRanges;
    DirsShape(s, parts);
    var i := LaidPlace(DirRanges(s.dirs), s.order, parts, s.currentId);
    assert DirHolds(s, parts, |parts| - 1);
  }

  lemma AppendKeepsLimits(d: FileDir, block: Bytes)
    requires Headed(d)
    ensures AppendBlock(d, block).0.maxFileCount == d.maxFileCount && AppendBlock(d, block).0.maxFileSize == d.maxFileSize
  {
    hide Write, CanFit, Init;
  }

  /** What an append does once its subdirectory is chosen. */
  lemma AppendChosen(s: DirDir, parts: seq<Blocks>, block: Bytes)
    requires DirsHold(s, parts) && s.currentId in s.dirs && StoreReady(s) && StoreHeaded(s)
    ensures var written := AppendBlock(s.dirs[s.currentId].store, block);
      var kept := WithDir(s, s.currentId, written.0);
      && (written.1.Some? <==> Accepts(s.dirs[s.currentId].store, |block|))
      && StoreReady(kept)
      && Keeps(if written.1.Some? then kept.(total := s.total + 1) else kept,
               if written.1.Some? then Flat(parts) + [block] else Flat(parts))
  {
    hide Stores, Flat, AppendBlock, Headed, DirsHold, DirReady, Accepts, WithDir;
    CurrentDirIsLast(s, parts);
    var n := |parts| - 1;
    DirsShape(s, parts);
    DirOf(s, parts, n);
    var store := s.dirs[s.currentId].store;
    AppendBlockMeaning(store, parts[n], block);
    AppendKeepsLimits(store, block);
    FlatGrows(parts, block);
    var written := AppendBlock(store, block);
    WithDirShape(s, s.currentId, written.0);
    if written.1.Some? {
      LastDirReplaced(s, parts, n, written.0, parts[n] + [block]);
      assert DirsHold(WithDir(s, s.currentId, written.0).(total := s.total + 1), parts[n := parts[n] + [block]]);
    } else {
      DirReplaced(s, parts, n, written.0);
    }
  }

  lemma AddedDirRanges(s: DirDir, id: nat, d: FileDir)
    requires id !in s.dirs && d.total == 0
    ensures var dirs := s.dirs[id := DirSlot(d, s.total)];
      |dirs| == |s.dirs| + 1 && DirRanges(dirs) == DirRanges(s.dirs)[id := Range(s.total, 0)]
  {
    var dirs := s.dirs[id := DirSlot(d, s.total)];
    assert |dirs| == |dirs.Keys| && dirs.Keys == s.dirs.Keys + {id} && |s.dirs| == |s.dirs.Keys|;
  }

  lemma DirAdded(s: DirDir, parts: seq<Blocks>, id: nat, d: FileDir)
    requires DirsHold(s, parts) && id > s.currentId && |s.dirs| < s.maxDirCount
    requires Stores(d, []) && SameLimits(d, s)
    ensures DirsHold(s.(currentId := id, dirs := s.dirs[id := DirSlot(d, s.total)], order := s.order + [id]), parts + [[]])
  {
    hide Stores, Flat, Laid, DirRanges;
    var longer := parts + [[]];
    var e := s.(currentId := id, dirs := s.dirs[id := DirSlot(d, s.total)], order := s.order + [id]);
    DirsShape(s, parts);
    StoresHeaded(d, []);
    LaidAdded(DirRanges(s.dirs), s.order, parts, id);
    AddedDirRanges(s, id, d);
    FlatSnoc(parts, []);
    forall j: nat | j < |longer| ensures DirHolds(e, longer, j) {
      if j < |parts| {
        assert DirHolds(s, parts, j);
      }
    }
  }

  lemma OpenNextDir(s: DirDir, parts: seq<Blocks>, size: nat)
    requires DirsHold(s, parts) && !CurrentDirFits(s, size) && |s.dirs| < s.maxDirCount
    ensures var e := ActiveDir(s, size).0;
      && DirsHold(e, parts + [[]]) && e.currentId in e.dirs && StoreReady(e) && e.total == s.total
      && ActiveDir(s, size).1 == Some(e.currentId)
      && InitDir(s.maxFileCount, s.maxFileSize) == Some(e.dirs[e.currentId].store)
  {
    hide Stores, Flat, CurrentDirFits, DirsHold, DirReady;
    DirsShape(s, parts);
    InitStores(s.maxFileCount, s.maxFileSize);
    DirAdded(s, parts, s.currentId + 1, InitDir(s.maxFileCount, s.maxFileSize).value);
  }

  /** A block that any fresh file can take. */
  predicate FitsFreshFile(s: DirDir, size: nat) {
    HEADER_SIZE + SIZE_PREFIX_BYTES + size <= s.maxFileSize
  }

  /** The exact condition under which an append to the subdirectories succeeds. */
  predicate DirsAccept(s: DirDir, size: nat) {
    if CurrentDirFits(s, size) then Accepts(s.dirs[s.currentId].store, size)
    else |s.dirs| < s.maxDirCount && FitsFreshFile(s, size)
  }

  /** The exact condition under which an append succeeds. */
  predicate StoreAccepts(s: DirDir, size: nat) {
    if s.root.None? then DirsAccept(s, size)
    else if DirCanFit(s.root.value, size) then Accepts(s.root.value, size)
    else s.maxDirCount > 1 && FitsFreshFile(s, size)
  }

  /** An accepted block fits a file with its header and size prefix. */
  lemma AcceptedFits(s: DirDir, blocks: Blocks, size: nat)
    requires Keeps(s, blocks) && StoreAccepts(s, size)
    ensures FitsFreshFile(s, size)
  {
    hide Stores, Flat, DirsHold, Accepts, DirCanFit;
    if RootHolds(s, blocks) {
      if DirCanFit(s.root.value, size) {
        AcceptsFit(s.root.value, blocks, size);
      }
    } else {
      var parts :| DirsHold(s, parts) && Flat(parts) == blocks;
      DirsShape(s, parts);
      if CurrentDirFits(s, size) {
        CurrentDirIsLast(s, parts);
        DirOf(s, parts, |parts| - 1);
        AcceptsFit(s.dirs[s.currentId].store, parts[|parts| - 1], size);
      }
    }
  }

  lemma AppendDirsMeaning(s: DirDir, parts: seq<Blocks>, block: Bytes)
    requires DirsHold(s, parts) && StoreHeaded(s)
    requires StoreReady(s) || (!CurrentDirFits(s, |block|) && |s.dirs| < s.maxDirCount)
    ensures AppendToDir(s, block).1 == if DirsAccept(s, |block|) then Some(s.total) else None
    ensures Keeps(AppendToDir(s, block).0, if DirsAccept(s, |block|) then Flat(parts) + [block] else Flat(parts))
    ensures StoreReady(AppendToDir(s, block).0)
  {
    hide Stores, Flat, AppendBlock, Headed, DirsHold, DirReady, Accepts, WithDir, DirCanFit, StoreHeaded;
    if CurrentDirFits(s, |block|) {
      AppendChosen(s, parts, block);
    } else if |s.dirs| < s.maxDirCount {
      OpenNextDir(s, parts, |block|);
      var e := ActiveDir(s, |block|).0;
      assert Keeps(e, Flat(parts + [[]]));
      KeepsHeaded(e, Flat(parts + [[]]));
      FlatSnoc(parts, []);
      assert Flat(parts) + [] == Flat(parts);
      DirsShape(s, parts);
      FreshAccepts(s.maxFileCount, s.maxFileSize, |block|);
      AppendChosen(e, parts + [[]], block);
    } else {
      assert Keeps(s, Flat(parts));
    }
  }

  lemma FreshAccepts(maxFileCount: nat, maxFileSize: FileLimit, size: nat)
    requires InitDir(maxFileCount, maxFileSize).Some?
    ensures Accepts(InitDir(maxFileCount, maxFileSize).value, size)
       <==> HEADER_SIZE + SIZE_PREFIX_BYTES + size <= maxFileSize
  {
  }

  // ----- relocating the root -----

  lemma ReopenedStores(d: FileDir, blocks: Blocks)
    requires Stores(d, blocks)
    ensures Reopened(d).Some? && Stores(Reopened(d).value, blocks)
    ensures var e := Reopened(d).value; e == d.(files := e.files) && |e.files| == |d.files| && e.files.Keys == d.files.Keys
  {
    hide Represents, Mount, Flat, MountFiles, Holds, RangesOf;
    var parts :| Holds(d, parts) && Flat(parts) == blocks;
    HoldsShape(d, parts);
    MountsAll(d, parts, |parts|);
    assert d.order[..|parts|] == d.order;
    var files := MountFiles(SavedIndex(d), DiskFiles(d), |parts|).value;
    forall id | id in d.order ensures id <= d.currentId {
      assert id in Elements(d.order);
    }
    MountHolds(d, parts, files, d.currentId);
    MountedRanges(d, parts, files);
    assert Holds(Reopened(d).value, parts);
  }

  lemma OneDirTable(id: nat, store: FileDir, start: nat)
    ensures DirRanges(map[id := DirSlot(store, start)]) == map[id := Range(start, store.total)]
    ensures Elements([id]) == {id}
  {
  }

  /** Relocation changes nothing: the renamed directory holds the same blocks. */
  lemma RelocatedKeeps(s: DirDir, blocks: Blocks)
    requires RootHolds(s, blocks)
    ensures Relocated(s).Some? && DirsHold(Relocated(s).value, [blocks]) && Flat([blocks]) == blocks
    ensures var e := Relocated(s).value;
      && e.currentId == 1 && 1 in e.dirs && |e.dirs| == 1 && e.dirs[1].store == Reopened(s.root.value).value
      && e.total == s.total && e.maxDirCount == s.maxDirCount && SameLimits(s.root.value, e)
      && |e.dirs[1].store.files| == |s.root.value.files|
  {
    hide Stores, Reopened, DirRanges;
    ReopenedStores(s.root.value, blocks);
    var e := Relocated(s).value;
    var d := e.dirs[1].store;
    StoresHeaded(d, blocks);
    OneDirTable(1, d, 0);
    FlatNothing();
    FlatSnoc([], blocks);
    assert [] + [blocks] == [blocks] && [blocks][..0] == [] && [] + blocks == blocks;
    assert s.dirs[1 := DirSlot(d, 0)] == map[1 := DirSlot(d, 0)];
    assert s.order + [1] == [1];
    assert LaidAt(DirRanges(e.dirs), e.order, [blocks], 0);
    assert DirHolds(e, [blocks], 0);
    assert |e.dirs| == 1;
  }

  lemma RelocatedFull(s: DirDir, blocks: Blocks, size: nat)
    requires RootHolds(s, blocks) && !DirCanFit(s.root.value, size)
    ensures Relocated(s).Some? && !CurrentDirFits(Relocated(s).value, size)
  {
    hide Stores, Reopened, DirsHold;
    RelocatedKeeps(s, blocks);
    ReopenedStores(s.root.value, blocks);
  }

  lemma AppendRelocating(s: DirDir, blocks: Blocks, block: Bytes)
    requires RootHolds(s, blocks) && StoreHeaded(s) && !DirCanFit(s.root.value, |block|) && s.maxDirCount > 1
    ensures AppendStore(s, block).1 == if StoreAccepts(s, |block|) then Some(|blocks|) else None
    ensures Keeps(AppendStore(s, block).0, if StoreAccepts(s, |block|) then blocks + [block] else blocks)
    ensures StoreReady(AppendStore(s, block).0)
  {
    hide Stores, DirsHold, AppendToDir, Relocated, DirCanFit, StoreHeaded, Keeps, StoreReady;
    RelocatedKeeps(s, blocks);
    RelocatedFull(s, blocks, |block|);
    var e := Relocated(s).value;
    assert Keeps(e, blocks) by { KeepsParts(e, [blocks]); }
    KeepsHeaded(e, blocks);
    AppendDirsMeaning(e, [blocks], block);
  }

  lemma KeepsParts(s: DirDir, parts: seq<Blocks>)
    requires DirsHold(s, parts)
    ensures Keeps(s, Flat(parts))
  {
  }

  /** An accepted append adds exactly this block at the end, relocating the root if it must; a refused one changes nothing. */
  lemma AppendStoreMeaning(s: DirDir, blocks: Blocks, block: Bytes)
    requires Keeps(s, blocks) && StoreReady(s) && StoreHeaded(s) && s.maxDirCount > 1
    ensures AppendStore(s, block).1 == if StoreAccepts(s, |block|) then Some(|blocks|) else None
    ensures Keeps(AppendStore(s, block).0, if StoreAccepts(s, |block|) then blocks + [block] else blocks)
    ensures StoreReady(AppendStore(s, block).0)
  {
    hide Stores, DirsHold, AppendToDir, Relocated, DirCanFit, AppendBlock, DirReady, Accepts, Flat, DirsAccept, Headed;
    if RootHolds(s, blocks) {
      if DirCanFit(s.root.value, |block|) {
        AppendBlockMeaning(s.root.value, blocks, block);
        AppendKeepsLimits(s.root.value, block);
        assert RootHolds(AppendStore(s, block).0, if StoreAccepts(s, |block|) then blocks + [block] else blocks);
      } else {
        AppendRelocating(s, blocks, block);
      }
    } else {
      var parts :| DirsHold(s, parts) && Flat(parts) == blocks;
      DirsShape(s, parts);
      AppendDirsMeaning(s, parts, block);
    }
  }

  /** With a single subdirectory allowed, a block too large for the root relocates it and is refused; from then on the
      store is safe to append to exactly when the current file was empty. */
  lemma LoneDirectoryIff(s: DirDir, blocks: Blocks, block: Bytes)
    requires RootHolds(s, blocks) && StoreHeaded(s) && !DirCanFit(s.root.value, |block|) && s.maxDirCount == 1
    ensures AppendStore(s, block).1 == None && Keeps(AppendStore(s, block).0, blocks)
    ensures StoreReady(AppendStore(s, block).0)
       <==> (s.root.value.currentId in s.root.value.files ==>
              s.root.value.files[s.root.value.currentId].store.blockCount == 0)
  {
    hide Stores, DirsHold, Reopened, DirCanFit, StoreHeaded, Keeps;
    RelocatedKeeps(s, blocks);
    RelocatedFull(s, blocks, |block|);
    var e := Relocated(s).value;
    assert Keeps(e, blocks) by { KeepsParts(e, [blocks]); }
    KeepsHeaded(e, blocks);
    if s.root.value.currentId in s.root.value.files {
      ReopenedCurrent(s.root.value, blocks);
    }
    ReopenedStores(s.root.value, blocks);
  }

  lemma ReopenedCurrent(d: FileDir, blocks: Blocks)
    requires Stores(d, blocks) && Reopened(d).Some? && d.currentId in d.files
    ensures d.currentId in Reopened(d).value.files
    ensures var now := Reopened(d).value.files[d.currentId].store;
      !now.indexBuilt && now.blockCount == d.files[d.currentId].store.blockCount
  {
    hide Represents, Mount, Flat, MountFiles, Holds, RangesOf, SavedIndex, DiskFiles, Reopened, Laid, Elements;
    var parts :| Holds(d, parts) && Flat(parts) == blocks;
    HoldsShape(d, parts);
    MountsAll(d, parts, |parts|);
    ReopenedFiles(d);
    CurrentIsLast(d, parts);
    var n := |parts| - 1;
    assert Mounted(d, Reopened(d).value.files, n);
    RemountedFile(d, parts, n);
  }

  lemma ReopenedFiles(d: FileDir)
    requires Reopened(d).Some?
    ensures MountFiles(SavedIndex(d), DiskFiles(d), |d.order|) == Some(Reopened(d).value.files)
  {
    hide MountFiles, SavedIndex, DiskFiles;
  }

  lemma RemountedFile(d: FileDir, parts: seq<Blocks>, n: nat)
    requires Holds(d, parts) && n < |parts| == |d.order|
    ensures d.order[n] in d.files && Mount(d.files[d.order[n]].store.file, d.maxFileSize).Some?
    ensures var now := Mount(d.files[d.order[n]].store.file, d.maxFileSize).value;
      !now.indexBuilt && now.blockCount == d.files[d.order[n]].store.blockCount
  {
    hide Represents, Mount, Flat, Holds;
    HoldsShape(d, parts);
    FileOf(d, parts, n);
    MountRepresents(d.files[d.order[n]].store, parts[n], d.maxFileSize);
    MountsSlot(d, parts, n);
  }

  // ----- truncating -----

  /** The store without the subdirectories behind the one named. */
  function CutDirs(s: DirDir, id: nat, total: nat): DirDir {
    s.(dirs := Below(s.dirs, id), order := UpTo(s.order, id), total := total)
  }

  lemma CutDirRanges(s: DirDir, id: nat)
    ensures DirRanges(Below(s.dirs, id)) == Below(DirRanges(s.dirs), id)
    ensures |Below(s.dirs, id)| == |DirRanges(Below(s.dirs, id))| <= |s.dirs|
  {
    var dirs := Below(s.dirs, id);
    assert |dirs| == |dirs.Keys| && |DirRanges(dirs)| == |DirRanges(dirs).Keys| && |s.dirs| == |s.dirs.Keys|;
    Subset(dirs.Keys, s.dirs.Keys);
  }

  lemma {:induction false} Subset(a: set<nat>, b: set<nat>)
    requires a <= b
    ensures |a| <= |b|
  {
    if a != {} {
      var x :| x in a;
      Subset(a - {x}, b - {x});
    }
  }

  lemma CutDirsHold(s: DirDir, parts: seq<Blocks>, i: nat)
    requires DirsHold(s, parts) && i < |parts| == |s.order|
    ensures DirsHold(CutDirs(s, s.order[i], |Flat(parts[..i + 1])|), parts[..i + 1])
    ensures UpTo(s.order, s.order[i]) == s.order[..i + 1]
  {
    hide Stores, Flat, Laid, UpTo, DirRanges, DirHolds;
    var kept := parts[..i + 1];
    var e := CutDirs(s, s.order[i], |Flat(kept)|);
    DirsShape(s, parts);
    LaidCut(DirRanges(s.dirs), s.order, parts, i);
    CutDirRanges(s, s.order[i]);
    forall j: nat | j < |kept| ensures DirHolds(e, kept, j) {
      CutDirHolds(s, parts, i, e, j);
    }
  }

  lemma CutDirHolds(s: DirDir, parts: seq<Blocks>, i: nat, e: DirDir, j: nat)
    requires DirsHold(s, parts) && j <= i < |parts| == |s.order|
    requires e.dirs == Below(s.dirs, s.order[i]) && e.order == s.order[..i + 1]
    requires e.maxFileSize == s.maxFileSize && e.maxFileCount == s.maxFileCount && e.currentId == s.currentId
    ensures DirHolds(e, parts[..i + 1], j)
  {
    hide Stores, Flat, DirsHold;
    DirsShape(s, parts);
    DirOf(s, parts, j);
  }

  /** The store after the cut, with the target subdirectory truncated. */
  lemma CutDirRewound(s: DirDir, parts: seq<Blocks>, i: nat, k: nat, store: FileDir)
    requires DirsHold(s, parts) && i < |parts| == |s.order| && k < |parts[i]| && s.order[i] in s.dirs
    requires Stores(store, parts[i][..k]) && SameLimits(store, s) && DirReady(store)
    ensures var kept := parts[..i + 1][i := parts[i][..k]];
      var cut := WithDir(CutDirs(s, s.order[i], s.total), s.order[i], store);
      && Count(DirRanges(cut.dirs), cut.order) == |Flat(kept)|
      && DirsHold(cut.(total := |Flat(kept)|), kept) && StoreReady(cut)
  {
    hide Stores, Flat, DirsHold, Count, UpTo, DirReady, DirRanges, Laid, Below;
    var id := s.order[i];
    var whole := parts[..i + 1];
    var kept := whole[i := parts[i][..k]];
    CutDirsHold(s, parts, i);
    var e := CutDirs(s, id, |Flat(whole)|);
    DirsShape(e, whole);
    DirOf(e, whole, i);
    LastDirReplaced(e, whole, i, store, parts[i][..k]);
    var cut := WithDir(e, id, store).(total := |Flat(kept)|);
    DirsShape(cut, kept);
    CountAll(DirRanges(cut.dirs), cut.order, kept);
    assert cut.(total := s.total) == WithDir(CutDirs(s, id, s.total), id, store);
    if e.currentId in e.dirs {
      CurrentDirIsLast(e, whole);
    }
  }

  lemma RewindDirsWithin(s: DirDir, parts: seq<Blocks>, i: nat, k: nat)
    requires DirsHold(s, parts) && StoreHeaded(s) && i < |parts| && k < |parts[i]|
    requires |s.order| == |parts| && Find(DirRanges(s.dirs), s.order, |Flat(parts[..i])| + k) == (s.order[i], k)
    ensures RewindStore(s, |Flat(parts[..i])| + k).1
    ensures |Flat(parts[..i])| + k < |Flat(parts)|
    ensures Keeps(RewindStore(s, |Flat(parts[..i])| + k).0, Flat(parts)[..|Flat(parts[..i])| + k])
    ensures StoreReady(RewindStore(s, |Flat(parts[..i])| + k).0)
  {
    hide Stores, Flat, DirsHold, Headed, RewindDir, Find, UpTo, Count, DirRanges, Laid, DirReady;
    DirsShape(s, parts);
    DirOf(s, parts, i);
    FlatAt(parts, i, k);
    FlatCut(parts, i, k);
    var store := s.dirs[s.order[i]].store;
    RewindDirMeaning(store, parts[i], k);
    RewindKeepsLimits(store, k);
    CutDirRewound(s, parts, i, k, RewindDir(store, k).0);
  }

  lemma RewindDirsAll(s: DirDir, parts: seq<Blocks>)
    requires DirsHold(s, parts) && StoreHeaded(s) && Find(DirRanges(s.dirs), s.order, s.total) == (0, 0)
    ensures RewindStore(s, s.total).1 && Keeps(RewindStore(s, s.total).0, []) && StoreReady(RewindStore(s, s.total).0)
  {
    hide Stores, Flat, Find, Laid;
    LaidCleared(DirRanges(s.dirs), s.order, parts);
    var e := RewindStore(s, s.total).0;
    assert e.dirs == map[];
    LaidEmpty();
    assert DirRanges(e.dirs) == map[];
    assert DirsHold(e, []);
  }

  lemma RewindStoreRefused(s: DirDir, index: nat)
    requires StoreHeaded(s) && index > s.total
    ensures RewindStore(s, index) == (s, false)
  {
  }

  lemma RewindRoot(s: DirDir, blocks: Blocks, index: nat)
    requires RootHolds(s, blocks) && StoreHeaded(s) && index <= |blocks|
    ensures RewindStore(s, index).1 && StoreReady(RewindStore(s, index).0)
    ensures RootHolds(RewindStore(s, index).0, if index < |blocks| then blocks[..index] else [])
  {
    hide Stores, RewindDir, Headed, DirReady;
    StoresHeaded(s.root.value, blocks);
    RewindDirMeaning(s.root.value, blocks, index);
    RewindKeepsLimits(s.root.value, index);
    StoresHeaded(RewindDir(s.root.value, index).0, if index < |blocks| then blocks[..index] else []);
  }

  /** Truncating below the count leaves exactly the first `index` blocks. Truncating to the count itself, which should
      change nothing, drops every block; beyond the count it is refused. */
  lemma RewindStoreMeaning(s: DirDir, blocks: Blocks, index: nat)
    requires Keeps(s, blocks) && StoreHeaded(s) && StoreReady(s)
    ensures RewindStore(s, index).1 <==> index <= |blocks|
    ensures Keeps(RewindStore(s, index).0,
      if index < |blocks| then blocks[..index] else if index == |blocks| then [] else blocks)
    ensures StoreReady(RewindStore(s, index).0)
  {
    hide Stores, Flat, Find, DirsHold, RewindStore, Laid, DirRanges, StoreReady, StoreHeaded;
    KeepsHeaded(s, blocks);
    if index > |blocks| {
      RewindStoreRefused(s, index);
    } else if RootHolds(s, blocks) {
      RewindRoot(s, blocks, index);
    } else {
      var parts :| DirsHold(s, parts) && Flat(parts) == blocks;
      DirsShape(s, parts);
      var i := FindMeaning(DirRanges(s.dirs), s.order, parts, index);
      if index < |blocks| {
        RewindDirsWithin(s, parts, i, index - |Flat(parts[..i])|);
      } else {
        RewindDirsAll(s, parts);
      }
    }
  }

  // ----- mounting -----

  predicate DirMounted(s: DirDir, dirs: map<nat, DirSlot>, j: nat)
    requires j < |s.order|
  {
    && s.order[j] in dirs && s.order[j] in s.dirs
    && var m := MountDir(SavedIndex(s.dirs[s.order[j]].store), DiskFiles(s.dirs[s.order[j]].store));
       m.Some? && dirs[s.order[j]] == DirSlot(m.value, s.dirs[s.order[j]].start)
  }

  lemma MountDirLimits(index: DirIndex, disk: map<nat, Bytes>)
    requires MountDir(index, disk).Some?
    ensures MountDir(index, disk).value.maxFileCount == index.maxFileCount
    ensures MountDir(index, disk).value.maxFileSize == index.maxFileSize
  {
    hide MountFiles, Count;
  }

  lemma MountsDirSlot(s: DirDir, parts: seq<Blocks>, j: nat)
    requires DirsHold(s, parts) && j < |parts| == |s.order|
    ensures s.order[j] in s.dirs
    ensures var m := MountDir(SavedIndex(s.dirs[s.order[j]].store), DiskFiles(s.dirs[s.order[j]].store));
      m.Some? && Stores(m.value, parts[j]) && SameLimits(m.value, s) && m.value.total == |parts[j]|
  {
    hide Stores, MountDir, Flat, DirsHold, SavedIndex, DiskFiles;
    DirsShape(s, parts);
    DirOf(s, parts, j);
    var d := s.dirs[s.order[j]].store;
    MountDirMeaning(d, parts[j]);
    MountDirLimits(SavedIndex(d), DiskFiles(d));
    StoresHeaded(MountDir(SavedIndex(d), DiskFiles(d)).value, parts[j]);
  }

  lemma MountDirNext(s: DirDir, n: nat)
    requires n < |s.order| && s.order[n] in s.dirs && MountDirs(SavedStore(s), n).Some?
    requires MountDir(SavedIndex(s.dirs[s.order[n]].store), DiskFiles(s.dirs[s.order[n]].store)).Some?
    ensures MountDirs(SavedStore(s), n + 1) == Some(MountDirs(SavedStore(s), n).value[
      s.order[n] := DirSlot(MountDir(SavedIndex(s.dirs[s.order[n]].store), DiskFiles(s.dirs[s.order[n]].store)).value,
                            s.dirs[s.order[n]].start)])
  {
    hide MountDir;
  }

  lemma MountNoDirs(s: DirDir)
    ensures MountDirs(SavedStore(s), 0) == Some(map[]) && Elements(s.order[..0]) == {}
  {
    hide SavedStore;
  }

  lemma {:induction false} MountsAllDirs(s: DirDir, parts: seq<Blocks>, n: nat)
    requires DirsHold(s, parts) && n <= |parts| == |s.order|
    ensures var dirs := MountDirs(SavedStore(s), n);
      && dirs.Some? && dirs.value.Keys == Elements(s.order[..n])
      && forall j: nat | j < n :: DirMounted(s, dirs.value, j)
  {
    hide Stores, MountDir, Flat, DirsHold, SavedStore, MountDirs, Elements, SavedIndex, DiskFiles;
    if n == 0 {
      MountNoDirs(s);
    } else {
      MountsAllDirs(s, parts, n - 1);
      MountsDirSlot(s, parts, n - 1);
      MountDirNext(s, n - 1);
      DirsShape(s, parts);
      MoreElements(s.order, n - 1);
      var dirs := MountDirs(SavedStore(s), n).value;
      var before := MountDirs(SavedStore(s), n - 1).value;
      forall j: nat | j < n ensures DirMounted(s, dirs, j) {
        if j < n - 1 {
          assert DirMounted(s, before, j);
        }
      }
    }
  }

  lemma MountedDirRanges(s: DirDir, parts: seq<Blocks>, dirs: map<nat, DirSlot>)
    requires DirsHold(s, parts) && |parts| == |s.order| && dirs.Keys == Elements(s.order)
    requires forall j: nat | j < |parts| :: DirMounted(s, dirs, j)
    ensures DirRanges(dirs) == DirRanges(s.dirs) && |dirs| == |s.dirs|
  {
    hide Stores, MountDir, Flat, DirsHold, Elements, SavedIndex, DiskFiles;
    DirsShape(s, parts);
    assert |dirs| == |dirs.Keys| && |s.dirs| == |s.dirs.Keys|;
    forall id | id in dirs ensures DirRanges(dirs)[id] == DirRanges(s.dirs)[id] {
      var j := LaidPlace(DirRanges(s.dirs), s.order, parts, id);
      assert DirMounted(s, dirs, j);
      MountsDirSlot(s, parts, j);
      DirOf(s, parts, j);
    }
  }

  lemma MountDirsHold(s: DirDir, parts: seq<Blocks>, dirs: map<nat, DirSlot>)
    requires DirsHold(s, parts) && |parts| == |s.order| && dirs.Keys == Elements(s.order)
    requires forall j: nat | j < |parts| :: DirMounted(s, dirs, j)
    ensures DirsHold(s.(dirs := dirs, currentId := MaxId(s.order)), parts)
  {
    hide Stores, MountDir, Flat, DirRanges, Laid, SavedIndex, DiskFiles;
    var m := s.(dirs := dirs, currentId := MaxId(s.order));
    MountedDirRanges(s, parts, dirs);
    forall j: nat | j < |parts| ensures DirHolds(m, parts, j) {
      assert DirMounted(s, dirs, j);
      MountsDirSlot(s, parts, j);
      assert s.order[j] in s.order;
    }
  }

  lemma MountRoot(s: DirDir, blocks: Blocks)
    requires RootHolds(s, blocks)
    ensures MountStore(SavedStore(s)).Some? && RootHolds(MountStore(SavedStore(s)).value, blocks)
    ensures MountStore(SavedStore(s)).value.maxDirCount == s.maxDirCount
    ensures MountStore(SavedStore(s)).value.maxFileSize == s.maxFileSize
  {
    hide Stores, MountDir, SavedIndex, DiskFiles;
    var d := s.root.value;
    MountDirMeaning(d, blocks);
    MountDirLimits(SavedIndex(d), DiskFiles(d));
    StoresHeaded(MountDir(SavedIndex(d), DiskFiles(d)).value, blocks);
  }

  lemma MountSubdirs(s: DirDir, parts: seq<Blocks>)
    requires DirsHold(s, parts) && s.order != []
    ensures MountStore(SavedStore(s)).Some? && DirsHold(MountStore(SavedStore(s)).value, parts)
    ensures MountStore(SavedStore(s)).value.maxDirCount == s.maxDirCount
    ensures MountStore(SavedStore(s)).value.maxFileSize == s.maxFileSize
  {
    hide Stores, MountDirs, Flat, DirsHold, DirRanges, Count, Laid, SavedStore, Elements;
    DirsShape(s, parts);
    MountsAllDirs(s, parts, |parts|);
    assert s.order[..|parts|] == s.order;
    var dirs := MountDirs(SavedStore(s), |parts|).value;
    MountDirsHold(s, parts, dirs);
    MountedDirRanges(s, parts, dirs);
    CountAll(DirRanges(dirs), s.order, parts);
    SavedConfig(s);
  }

  lemma SavedConfig(s: DirDir)
    ensures var disk := SavedStore(s);
      && disk.maxDirCount == s.maxDirCount && disk.maxFileCount == s.maxFileCount && disk.maxFileSize == s.maxFileSize
      && Ids(disk.entries) == s.order && |disk.entries| == |s.order|
  {
    hide SavedDir;
    assert Ids(SavedStore(s).entries) == s.order;
  }

  /** Mounting what an orderly shutdown saved gives back the same list, except that a relocated store whose subdirectories
      were all truncated away is taken for a root store and cannot be mounted. */
  lemma MountStoreIff(s: DirDir, blocks: Blocks)
    requires Keeps(s, blocks)
    ensures MountStore(SavedStore(s)).Some? <==> s.root.Some? || s.dirs != map[]
    ensures MountStore(SavedStore(s)).Some? ==>
      && Keeps(MountStore(SavedStore(s)).value, blocks)
      && MountStore(SavedStore(s)).value.maxDirCount == s.maxDirCount
      && MountStore(SavedStore(s)).value.maxFileSize == s.maxFileSize
  {
    hide Stores, MountDirs, Flat, DirsHold, MountDir;
    if RootHolds(s, blocks) {
      MountRoot(s, blocks);
    } else {
      var parts :| DirsHold(s, parts) && Flat(parts) == blocks;
      DirsShape(s, parts);
      if s.order != [] {
        MountSubdirs(s, parts);
        assert s.order[0] in Elements(s.order);
      }
    }
  }

  lemma LastIsReady(s: DirDir, parts: seq<Blocks>)
    requires DirsHold(s, parts) && StoreHeaded(s) && s.currentId in s.dirs
    ensures Flat(parts) == [] ==> StoreReady(s)
    ensures Flat(parts) != [] ==> StoreReady(ReadStore(s, |Flat(parts)| - 1).0)
  {
    hide Stores, Flat, DirsHold, Find, ReadBlock, Headed, DirReady, DirRanges, Laid, WithDir, ReadStore;
    DirsShape(s, parts);
    CurrentDirIsLast(s, parts);
    var n := |parts| - 1;
    DirOf(s, parts, n);
    FlatNext(parts, n);
    assert parts[..n + 1] == parts;
    ReadLastMakesReady(s.dirs[s.currentId].store, parts[n]);
    if Flat(parts) != [] {
      var i := FindMeaning(DirRanges(s.dirs), s.order, parts, |Flat(parts)| - 1);
      DirOf(s, parts, i);
      var k := |Flat(parts)| - 1 - |Flat(parts[..i])|;
      ReadFound(s, |Flat(parts)| - 1, s.order[i], k);
      WithDirShape(s, s.order[i], ReadBlock(s.dirs[s.order[i]].store, k).0);
      LastPart(parts, i, n);
    }
  }

  lemma ReadFound(s: DirDir, index: nat, id: nat, k: nat)
    requires StoreHeaded(s) && s.root.None? && Find(DirRanges(s.dirs), s.order, index) == (id, k) && 0 < id && id in s.dirs
    ensures ReadStore(s, index).0 == WithDir(s, id, ReadBlock(s.dirs[id].store, k).0)
  {
    hide ReadBlock, Find, DirRanges, WithDir;
  }

  /** The part that holds the last block is the last part, or the last part is empty. */
  lemma LastPart(parts: seq<Blocks>, i: nat, n: nat)
    requires i <= n && n + 1 == |parts| && |Flat(parts[..i])| < |Flat(parts)| <= |Flat(parts[..i])| + |parts[i]|
    ensures i == n || parts[n] == []
  {
    hide Flat;
    FlatNext(parts, n);
    FlatNext(parts, i);
    assert parts[..n + 1] == parts;
    if i < n {
      RangesApart(parts, i, n);
    }
  }

  /** A mounted store becomes safe to append to once its last block has been read, as a mounted ledger does. */
  lemma ReadLastMakesStoreReady(s: DirDir, blocks: Blocks)
    requires Keeps(s, blocks) && StoreHeaded(s)
    ensures blocks == [] ==> StoreReady(s)
    ensures blocks != [] ==> StoreReady(ReadStore(s, |blocks| - 1).0)
  {
    hide Stores, Flat, DirsHold, Find, ReadBlock, Headed, DirReady, DirRanges;
    if RootHolds(s, blocks) {
      StoresHeaded(s.root.value, blocks);
      ReadLastMakesReady(s.root.value, blocks);
    } else {
      var parts :| DirsHold(s, parts) && Flat(parts) == blocks;
      DirsShape(s, parts);
      if s.currentId in s.dirs {
        LastIsReady(s, parts);
      } else if blocks != [] {
        var i := FindMeaning(DirRanges(s.dirs), s.order, parts, |blocks| - 1);
        DirOf(s, parts, i);
      }
    }
  }
}
