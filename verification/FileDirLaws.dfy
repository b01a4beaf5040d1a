/** A directory of block files behaves as one list of blocks, cut at the file boundaries. */
module FileDirLaws {
  import opened Numbers
  import opened Outcomes
  import opened FileFormat
  import opened FileLaws
  import opened Ranges
  import opened FileDirFormat

  /** File number `i` in the order holds part `i`. */
  ghost predicate FileHolds(d: FileDir, parts: seq<Blocks>, i: nat)
    requires i < |d.order| == |parts|
  {
    && d.order[i] in d.files && d.order[i] <= d.currentId
    && Represents(d.files[d.order[i]].store, parts[i])
    && d.files[d.order[i]].store.maxSize == d.maxFileSize
  }

  ghost predicate Holds(d: FileDir, parts: seq<Blocks>) {
    && Laid(RangesOf(d.files), d.order, parts) && |d.order| == |parts|
    && |d.files| <= d.maxFileCount && d.maxFileCount > 0 && d.maxFileSize >= MIN_MAX_SIZE
    && d.total == |Flat(parts)|
    && forall i: nat | i < |parts| :: FileHolds(d, parts, i)
  }

  /** The next append keeps the bookkeeping of the file it would go to right. */
  predicate DirReady(d: FileDir) {
    d.currentId in d.files ==> AppendReady(d.files[d.currentId].store)
  }

  /** The directory stands for this list of blocks. */
  ghost predicate Stores(d: FileDir, blocks: Blocks) {
    exists parts :: Holds(d, parts) && Flat(parts) == blocks
  }

  lemma StoresParts(d: FileDir, parts: seq<Blocks>)
    requires Holds(d, parts)
    ensures Stores(d, Flat(parts))
  {
  }

  lemma HoldsShape(d: FileDir, parts: seq<Blocks>)
    requires Holds(d, parts)
    ensures Laid(RangesOf(d.files), d.order, parts) && |d.order| == |parts| == |d.files| <= d.maxFileCount
    ensures d.maxFileCount > 0 && d.maxFileSize >= MIN_MAX_SIZE && d.total == |Flat(parts)|
    ensures Increasing(d.order) && Elements(d.order) == d.files.Keys
    ensures forall id | id in d.files :: 0 < id <= d.currentId
  {
    hide Represents, Flat, Laid;
    LaidLength(RangesOf(d.files), d.order, parts);
    assert |d.files| == |d.files.Keys| && |RangesOf(d.files)| == |RangesOf(d.files).Keys|;
    forall id | id in d.files ensures 0 < id <= d.currentId {
      var i := LaidPlace(RangesOf(d.files), d.order, parts, id);
      assert FileHolds(d, parts, i);
    }
  }

  lemma FileOf(d: FileDir, parts: seq<Blocks>, i: nat)
    requires Holds(d, parts) && i < |parts|
    ensures |d.order| == |parts| && d.order[i] in d.files && 0 < d.order[i] <= d.currentId
    ensures var slot := d.files[d.order[i]];
      && Represents(slot.store, parts[i]) && slot.store.maxSize == d.maxFileSize
      && slot.start == |Flat(parts[..i])| && slot.store.blockCount == |parts[i]|
      && HEADER_SIZE <= slot.store.currentSize == |slot.store.file|
  {
    hide Represents, Flat, Laid;
    assert FileHolds(d, parts, i);
    LaidSlot(RangesOf(d.files), d.order, parts, i);
    Sized(d.files[d.order[i]].store, parts[i]);
  }

  lemma StoresHeaded(d: FileDir, blocks: Blocks)
    requires Stores(d, blocks)
    ensures Headed(d) && d.total == |blocks|
  {
    hide Holds, Flat;
    var parts :| Holds(d, parts) && Flat(parts) == blocks;
    HoldsShape(d, parts);
    forall id | id in d.files
      ensures HEADER_SIZE <= |d.files[id].store.file| && d.files[id].store.currentSize <= |d.files[id].store.file|
    {
      var i := LaidPlace(RangesOf(d.files), d.order, parts, id);
      FileOf(d, parts, i);
    }
  }

  lemma InitStores(maxFileCount: nat, maxFileSize: FileLimit)
    requires InitDir(maxFileCount, maxFileSize).Some?
    ensures Stores(InitDir(maxFileCount, maxFileSize).value, []) && DirReady(InitDir(maxFileCount, maxFileSize).value)
  {
    LaidEmpty();
    var d := InitDir(maxFileCount, maxFileSize).value;
    assert RangesOf(d.files) == map[];
    assert Holds(d, []);
  }

  // ----- replacing one file -----

  lemma WithStoreShape(d: FileDir, id: nat, store: FileState)
    requires id in d.files
    ensures var e := WithStore(d, id, store);
      && e == d.(files := e.files) && e.files.Keys == d.files.Keys && |e.files| == |d.files|
      && (forall k | k in d.files :: e.files[k] == if k == id then d.files[k].(store := store) else d.files[k])
      && RangesOf(e.files) == RangesOf(d.files)[id := Range(d.files[id].start, store.blockCount)]
  {
    var e := WithStore(d, id, store);
    assert e.files.Keys == d.files.Keys;
    assert |e.files| == |e.files.Keys| && |d.files| == |d.files.Keys|;
  }

  lemma SameRanges(d: FileDir, id: nat, store: FileState)
    requires id in d.files && store.blockCount == d.files[id].store.blockCount
    ensures RangesOf(WithStore(d, id, store).files) == RangesOf(d.files)
  {
    hide RangesOf;
    WithStoreShape(d, id, store);
    assert RangesOf(d.files)[id] == Range(d.files[id].start, d.files[id].store.blockCount) by { RangeAt(d, id); }
  }

  lemma RangeAt(d: FileDir, id: nat)
    requires id in d.files
    ensures id in RangesOf(d.files) && RangesOf(d.files)[id] == Range(d.files[id].start, d.files[id].store.blockCount)
  {
  }

  /** A file may change inwardly as long as it stands for the same part. */
  lemma StoreReplaced(d: FileDir, parts: seq<Blocks>, i: nat, store: FileState)
    requires Holds(d, parts) && i < |parts| == |d.order| && d.order[i] in d.files
    requires Represents(store, parts[i]) && store.maxSize == d.maxFileSize
    ensures Holds(WithStore(d, d.order[i], store), parts)
  {
    hide Represents, Flat, WithStore, RangesOf, Laid;
    var e := WithStore(d, d.order[i], store);
    HoldsShape(d, parts);
    FileOf(d, parts, i);
    Sized(store, parts[i]);
    SameRanges(d, d.order[i], store);
    WithStoreShape(d, d.order[i], store);
    forall j: nat | j < |parts| ensures FileHolds(e, parts, j) {
      assert FileHolds(d, parts, j);
    }
  }

  /** The last file may change together with its part. */
  lemma LastReplaced(d: FileDir, parts: seq<Blocks>, n: nat, store: FileState, part: Blocks)
    requires Holds(d, parts) && |d.order| == |parts| == n + 1 && d.order[n] in d.files
    requires Represents(store, part) && store.maxSize == d.maxFileSize
    ensures Holds(WithStore(d, d.order[n], store).(total := |Flat(parts[n := part])|), parts[n := part])
  {
    hide Represents, Flat, WithStore, RangesOf, Laid, FileHolds;
    var changed := parts[n := part];
    var e := WithStore(d, d.order[n], store).(total := |Flat(changed)|);
    WithStoreShape(d, d.order[n], store);
    Sized(store, part);
    RangeAt(d, d.order[n]);
    LaidLast(RangesOf(d.files), d.order, parts, n, part);
    forall j: nat | j < |changed| ensures FileHolds(e, changed, j) {
      LastReplacedAt(d, parts, n, store, part, |Flat(changed)|, j);
    }
  }

  lemma LastReplacedAt(d: FileDir, parts: seq<Blocks>, n: nat, store: FileState, part: Blocks, total: nat, j: nat)
    requires Holds(d, parts) && |d.order| == |parts| == n + 1 && d.order[n] in d.files && j <= n
    requires Represents(store, part) && store.maxSize == d.maxFileSize
    ensures |WithStore(d, d.order[n], store).order| == |parts|
    ensures FileHolds(WithStore(d, d.order[n], store).(total := total), parts[n := part], j)
  {
    hide Represents, Flat, WithStore, RangesOf, Holds;
    WithStoreShape(d, d.order[n], store);
    HoldsShape(d, parts);
    FileOf(d, parts, j);
  }

  // ----- reading -----

  /** Reading returns exactly the block of the list, leaves the list alone, and nothing past the end is found. */
  lemma ReadBlockMeaning(d: FileDir, blocks: Blocks, index: nat)
    requires Stores(d, blocks) && Headed(d)
    ensures ReadBlock(d, index).1 == if index < |blocks| then Some(blocks[index]) else None
    ensures Stores(ReadBlock(d, index).0, blocks) && (DirReady(d) ==> DirReady(ReadBlock(d, index).0))
  {
    hide Represents, Flat, Find, Read, Holds, Laid;
    var parts :| Holds(d, parts) && Flat(parts) == blocks;
    HoldsShape(d, parts);
    var i := FindMeaning(RangesOf(d.files), d.order, parts, index);
    if index < |blocks| {
      FileOf(d, parts, i);
      var k := index - |Flat(parts[..i])|;
      ReadReturns(d.files[d.order[i]].store, parts[i], k);
      ReadKeepsLimit(d.files[d.order[i]].store, k);
      FlatAt(parts, i, k);
      StoreReplaced(d, parts, i, Read(d.files[d.order[i]].store, k).0);
    }
  }

  lemma ReadKeepsLimit(s: FileState, k: nat)
    requires s.currentSize <= |s.file|
    ensures Read(s, k).0.maxSize == s.maxSize && (IndexAvailable(s) ==> Read(s, k).0.indexBuilt)
  {
    hide ScanFile;
  }

  // ----- appending -----

  lemma CurrentIsLast(d: FileDir, parts: seq<Blocks>)
    requires Holds(d, parts) && d.currentId in d.files
    ensures |parts| > 0 && |d.order| == |parts| && d.order[|parts| - 1] == d.currentId
  {
    hide Represents, Flat, Laid, RangesOf;
    HoldsShape(d, parts);
    var i := LaidPlace(RangesOf(d.files), d.order, parts, d.currentId);
    assert FileHolds(d, parts, |parts| - 1);
  }

  lemma AppendToCurrent(d: FileDir, parts: seq<Blocks>, block: Bytes)
    requires Holds(d, parts) && DirReady(d) && CurrentFits(d, |block|) && Headed(d)
    ensures AppendBlock(d, block).1 == Some(d.total) && DirReady(AppendBlock(d, block).0)
    ensures Stores(AppendBlock(d, block).0, Flat(parts) + [block])
  {
    hide Represents, Flat, Write, CanFit, WithStore, Holds, Headed, RangesOf, Laid;
    CurrentIsLast(d, parts);
    HoldsShape(d, parts);
    var n := |parts| - 1;
    FlatGrows(parts, block);
    FileOf(d, parts, n);
    var store := d.files[d.currentId].store;
    WriteRepresentsIff(store, parts[n], block);
    WriteBuilds(store, block);
    WithStoreShape(d, d.currentId, Write(store, block).0);
    LastReplaced(d, parts, n, Write(store, block).0, parts[n] + [block]);
    assert Holds(AppendBlock(d, block).0, parts[n := parts[n] + [block]]);
  }

  lemma FileAdded(d: FileDir, parts: seq<Blocks>, id: nat, file: FileState)
    requires Holds(d, parts) && id > d.currentId && |d.files| < d.maxFileCount
    requires Represents(file, []) && file.maxSize == d.maxFileSize && file.blockCount == 0
    ensures Holds(d.(currentId := id, files := d.files[id := FileSlot(file, d.total)], order := d.order + [id]), parts + [[]])
  {
    hide Represents, Flat, Laid, RangesOf;
    var longer := parts + [[]];
    var e := d.(currentId := id, files := d.files[id := FileSlot(file, d.total)], order := d.order + [id]);
    HoldsShape(d, parts);
    LaidAdded(RangesOf(d.files), d.order, parts, id);
    AddedRanges(d, id, file);
    FlatSnoc(parts, []);
    forall j: nat | j < |longer| ensures FileHolds(e, longer, j) {
      if j < |parts| {
        assert FileHolds(d, parts, j);
      }
    }
  }

  lemma AddedRanges(d: FileDir, id: nat, file: FileState)
    requires id !in d.files && file.blockCount == 0
    ensures var files := d.files[id := FileSlot(file, d.total)];
      |files| == |d.files| + 1 && RangesOf(files) == RangesOf(d.files)[id := Range(d.total, 0)]
  {
    var files := d.files[id := FileSlot(file, d.total)];
    assert |files| == |files.Keys| && files.Keys == d.files.Keys + {id} && |d.files| == |d.files.Keys|;
  }

  lemma InitLimit(maxSize: FileLimit)
    requires maxSize >= MIN_MAX_SIZE
    ensures Init(maxSize).Some? && Init(maxSize).value.maxSize == maxSize && Init(maxSize).value.blockCount == 0
    ensures Init(maxSize).value.currentSize == HEADER_SIZE
  {
  }

  lemma OpenNextFile(d: FileDir, parts: seq<Blocks>, size: nat)
    requires Holds(d, parts) && !CurrentFits(d, size) && |d.files| < d.maxFileCount
    ensures var e := ActiveFile(d, size).0;
      && Holds(e, parts + [[]]) && e.currentId in e.files && DirReady(e)
      && ActiveFile(d, size).1 == Some(e.currentId) && e.total == d.total
      && e.files[e.currentId].store == Init(d.maxFileSize).value
  {
    hide Represents, Flat, CurrentFits, Init, Holds;
    HoldsShape(d, parts);
    InitRepresents(d.maxFileSize);
    InitLimit(d.maxFileSize);
    FileAdded(d, parts, d.currentId + 1, Init(d.maxFileSize).value);
  }

  /** The exact condition under which an append succeeds. */
  predicate Accepts(d: FileDir, size: nat) {
    CurrentFits(d, size) || (|d.files| < d.maxFileCount && HEADER_SIZE + SIZE_PREFIX_BYTES + size <= d.maxFileSize)
  }

  lemma AcceptsFit(d: FileDir, blocks: Blocks, size: nat)
    requires Stores(d, blocks) && Accepts(d, size)
    ensures HEADER_SIZE + SIZE_PREFIX_BYTES + size <= d.maxFileSize
  {
    hide Represents, Flat, Holds;
    if CurrentFits(d, size) {
      var parts :| Holds(d, parts) && Flat(parts) == blocks;
      CurrentIsLast(d, parts);
      FileOf(d, parts, |parts| - 1);
    }
  }

  /** An accepted append adds exactly this block at the end; a refused one (which may still open a file) changes nothing. */
  lemma AppendBlockMeaning(d: FileDir, blocks: Blocks, block: Bytes)
    requires Stores(d, blocks) && DirReady(d) && Headed(d)
    ensures AppendBlock(d, block).1 == if Accepts(d, |block|) then Some(|blocks|) else None
    ensures Stores(AppendBlock(d, block).0, if Accepts(d, |block|) then blocks + [block] else blocks)
    ensures DirReady(AppendBlock(d, block).0)
  {
    hide Represents, Flat, Write, WithStore, Holds, Headed, Init, DirReady;
    var parts :| Holds(d, parts) && Flat(parts) == blocks;
    HoldsShape(d, parts);
    if CurrentFits(d, |block|) {
      AppendToCurrent(d, parts, block);
    } else if |d.files| < d.maxFileCount {
      AppendToNext(d, parts, block);
    }
  }

  lemma AppendToNext(d: FileDir, parts: seq<Blocks>, block: Bytes)
    requires Holds(d, parts) && Headed(d) && !CurrentFits(d, |block|) && |d.files| < d.maxFileCount
    ensures AppendBlock(d, block).1 == if Accepts(d, |block|) then Some(d.total) else None
    ensures Stores(AppendBlock(d, block).0, if Accepts(d, |block|) then Flat(parts) + [block] else Flat(parts))
    ensures DirReady(AppendBlock(d, block).0)
  {
    hide Represents, Flat, Write, WithStore, Holds, ActiveFile, Init, DirReady, Stores;
    OpenNextFile(d, parts, |block|);
    var e := ActiveFile(d, |block|).0;
    StoresParts(e, parts + [[]]);
    StoresHeaded(e, Flat(parts + [[]]));
    FlatSnoc(parts, []);
    assert Flat(parts) + [] == Flat(parts);
    HoldsShape(d, parts);
    InitLimit(d.maxFileSize);
    if CanFit(e.files[e.currentId].store, |block|) {
      AppendToCurrent(e, parts + [[]], block);
      AppendAgain(d, e, block);
    } else {
      RefusedWrite(e, e.currentId, block);
    }
  }

  /** Opening the file first does not change what the append then does. */
  lemma AppendAgain(d: FileDir, e: FileDir, block: Bytes)
    requires Headed(d) && Headed(e) && e.total == d.total && CurrentFits(e, |block|)
    requires ActiveFile(d, |block|) == (e, Some(e.currentId))
    ensures AppendBlock(d, block) == AppendBlock(e, block)
  {
    hide Write, WithStore, Headed, CanFit;
  }

  lemma RefusedWrite(e: FileDir, id: nat, block: Bytes)
    requires Headed(e) && id in e.files && !CanFit(e.files[id].store, |block|)
    ensures Write(e.files[id].store, block) == (e.files[id].store, None)
    ensures WithStore(e, id, e.files[id].store) == e
  {
    assert e.files[id := e.files[id].(store := e.files[id].store)] == e.files;
  }

  /** A block that fits into the current file although no further file may be opened: `canFit` denies it. */
  predicate Underpromised(d: FileDir, size: nat) {
    CurrentFits(d, size) && |d.files| >= d.maxFileCount
  }

  /** A block within 32 bytes of the file limit that needs a new file: `canFit` leaves no room for header and size. */
  predicate Overpromised(d: FileDir, size: nat) {
    !CurrentFits(d, size) && |d.files| < d.maxFileCount && size <= d.maxFileSize < size + HEADER_SIZE + SIZE_PREFIX_BYTES
  }

  /** For every directory and block, `canFit` tells whether the append succeeds if and only if neither is the case. */
  lemma CanFitTellsIff(d: FileDir, blocks: Blocks, block: Bytes)
    requires Stores(d, blocks) && DirReady(d) && Headed(d)
    ensures (DirCanFit(d, |block|) <==> AppendBlock(d, block).1.Some?) <==>
      !Underpromised(d, |block|) && !Overpromised(d, |block|)
  {
    hide Stores, DirReady, Headed, CurrentFits, AppendBlock;
    AppendBlockMeaning(d, blocks, block);
    if Accepts(d, |block|) {
      AcceptsFit(d, blocks, |block|);
    }
  }

  // ----- truncating -----

  /** The directory without the files behind the one named. */
  function CutBehind(d: FileDir, id: nat, order: seq<nat>, total: nat): FileDir {
    d.(files := Below(d.files, id), order := order, total := total)
  }

  lemma CutHolds(d: FileDir, parts: seq<Blocks>, i: nat)
    requires Holds(d, parts) && i < |parts| == |d.order|
    ensures Holds(CutBehind(d, d.order[i], UpTo(d.order, d.order[i]), |Flat(parts[..i + 1])|), parts[..i + 1])
    ensures UpTo(d.order, d.order[i]) == d.order[..i + 1]
  {
    hide Represents, Flat, Laid, UpTo, RangesOf, FileHolds;
    var kept := parts[..i + 1];
    var e := CutBehind(d, d.order[i], UpTo(d.order, d.order[i]), |Flat(kept)|);
    HoldsShape(d, parts);
    LaidCut(RangesOf(d.files), d.order, parts, i);
    CutRanges(d, d.order[i], e);
    LaidLength(RangesOf(e.files), e.order, kept);
    forall j: nat | j < |kept| ensures FileHolds(e, kept, j) {
      CutFileHolds(d, parts, i, e, j);
    }
  }

  lemma CutFileHolds(d: FileDir, parts: seq<Blocks>, i: nat, e: FileDir, j: nat)
    requires Holds(d, parts) && j <= i < |parts| == |d.order|
    requires e.files == Below(d.files, d.order[i]) && e.order == d.order[..i + 1]
    requires e.maxFileSize == d.maxFileSize && e.currentId == d.currentId
    ensures FileHolds(e, parts[..i + 1], j)
  {
    hide Represents, Flat, Holds;
    HoldsShape(d, parts);
    FileOf(d, parts, j);
  }

  lemma CutRanges(d: FileDir, id: nat, e: FileDir)
    requires e.files == Below(d.files, id)
    ensures RangesOf(e.files) == Below(RangesOf(d.files), id)
    ensures |e.files| == |RangesOf(e.files)|
  {
    assert |e.files| == |e.files.Keys| && |RangesOf(e.files)| == |RangesOf(e.files).Keys|;
  }

  /** The directory after the cut, with the target file truncated: what it stores, and that counting its blocks agrees. */
  lemma CutRewound(d: FileDir, parts: seq<Blocks>, i: nat, k: nat, store: FileState)
    requires Holds(d, parts) && i < |parts| == |d.order| && k < |parts[i]| && d.order[i] in d.files
    requires Represents(store, parts[i][..k]) && store.maxSize == d.maxFileSize && store.indexBuilt
    ensures var kept := parts[..i + 1][i := parts[i][..k]];
      var cut := WithStore(CutBehind(d, d.order[i], UpTo(d.order, d.order[i]), d.total), d.order[i], store);
      && Count(RangesOf(cut.files), cut.order) == |Flat(kept)|
      && Holds(cut.(total := |Flat(kept)|), kept) && DirReady(cut)
  {
    hide Represents, Flat, Holds, Count, UpTo;
    var id := d.order[i];
    var whole := parts[..i + 1];
    var kept := whole[i := parts[i][..k]];
    CutHolds(d, parts, i);
    var e := CutBehind(d, id, d.order[..i + 1], |Flat(whole)|);
    LastReplaced(e, whole, i, store, parts[i][..k]);
    var cut := WithStore(e, id, store).(total := |Flat(kept)|);
    HoldsShape(cut, kept);
    CountAll(RangesOf(cut.files), cut.order, kept);
    assert cut.(total := d.total) == WithStore(CutBehind(d, id, d.order[..i + 1], d.total), id, store);
    OnlyLastCurrent(e, whole, i);
  }

  lemma OnlyLastCurrent(e: FileDir, whole: seq<Blocks>, i: nat)
    requires Holds(e, whole) && |whole| == i + 1 == |e.order|
    ensures e.currentId in e.files ==> e.currentId == e.order[i]
  {
    hide Holds;
    if e.currentId in e.files {
      CurrentIsLast(e, whole);
    }
  }

  lemma RewindWithin(d: FileDir, parts: seq<Blocks>, i: nat, k: nat)
    requires Holds(d, parts) && Headed(d) && i < |parts| && k < |parts[i]|
    requires |d.order| == |parts| && Find(RangesOf(d.files), d.order, |Flat(parts[..i])| + k) == (d.order[i], k)
    ensures RewindDir(d, |Flat(parts[..i])| + k).1
    ensures |Flat(parts[..i])| + k < |Flat(parts)|
    ensures Stores(RewindDir(d, |Flat(parts[..i])| + k).0, Flat(parts)[..|Flat(parts[..i])| + k])
    ensures DirReady(RewindDir(d, |Flat(parts[..i])| + k).0)
  {
    hide Represents, Flat, Holds, Headed, RewindTo, Find, UpTo, Count, RangesOf, Laid;
    HoldsShape(d, parts);
    FileOf(d, parts, i);
    FlatAt(parts, i, k);
    FlatCut(parts, i, k);
    var store := d.files[d.order[i]].store;
    RewindRepresents(store, parts[i], k);
    CutRewound(d, parts, i, k, RewindTo(store, k).0);
  }

  lemma RewindAll(d: FileDir, parts: seq<Blocks>)
    requires Holds(d, parts) && Headed(d) && Find(RangesOf(d.files), d.order, d.total) == (0, 0)
    ensures RewindDir(d, d.total).1 && Stores(RewindDir(d, d.total).0, []) && DirReady(RewindDir(d, d.total).0)
  {
    hide Represents, Flat, Find, Laid;
    LaidCleared(RangesOf(d.files), d.order, parts);
    var e := RewindDir(d, d.total).0;
    assert e.files == map[];
    LaidEmpty();
    assert RangesOf(e.files) == map[];
    assert Holds(e, []);
  }

  lemma RewindRefused(d: FileDir, index: nat)
    requires Headed(d) && index > d.total
    ensures RewindDir(d, index) == (d, false)
  {
  }

  /** Truncating below the count leaves exactly the first `index` blocks. Truncating to the count itself, which should
      change nothing, drops every block; beyond the count it is refused. */
  lemma RewindDirMeaning(d: FileDir, blocks: Blocks, index: nat)
    requires Stores(d, blocks) && Headed(d)
    ensures RewindDir(d, index).1 <==> index <= |blocks|
    ensures Stores(RewindDir(d, index).0,
      if index < |blocks| then blocks[..index] else if index == |blocks| then [] else blocks)
    ensures index <= |blocks| || DirReady(d) ==> DirReady(RewindDir(d, index).0)
  {
    hide Represents, Flat, Find, Holds, DirReady, RewindDir, Laid;
    var parts :| Holds(d, parts) && Flat(parts) == blocks;
    HoldsShape(d, parts);
    var i := FindMeaning(RangesOf(d.files), d.order, parts, index);
    if index < |blocks| {
      RewindWithin(d, parts, i, index - |Flat(parts[..i])|);
    } else if index == |blocks| {
      RewindAll(d, parts);
    } else {
      RewindRefused(d, index);
    }
  }

  // ----- mounting -----

  predicate Mounted(d: FileDir, files: map<nat, FileSlot>, j: nat)
    requires j < |d.order|
  {
    && d.order[j] in files && d.order[j] in d.files
    && Mount(d.files[d.order[j]].store.file, d.maxFileSize).Some?
    && files[d.order[j]] == FileSlot(Mount(d.files[d.order[j]].store.file, d.maxFileSize).value, d.files[d.order[j]].start)
  }

  lemma MountsSlot(d: FileDir, parts: seq<Blocks>, j: nat)
    requires Holds(d, parts) && j < |parts| == |d.order|
    ensures d.order[j] in d.files
    ensures var m := Mount(d.files[d.order[j]].store.file, d.maxFileSize);
      m.Some? && Represents(m.value, parts[j]) && m.value.maxSize == d.maxFileSize && m.value.blockCount == |parts[j]|
  {
    hide Represents, Mount, Flat, Holds;
    HoldsShape(d, parts);
    FileOf(d, parts, j);
    MountRepresents(d.files[d.order[j]].store, parts[j], d.maxFileSize);
    Sized(Mount(d.files[d.order[j]].store.file, d.maxFileSize).value, parts[j]);
  }

  lemma MountNext(d: FileDir, n: nat)
    requires n < |d.order| && d.order[n] in d.files && MountFiles(SavedIndex(d), DiskFiles(d), n).Some?
    requires Mount(d.files[d.order[n]].store.file, d.maxFileSize).Some?
    ensures MountFiles(SavedIndex(d), DiskFiles(d), n + 1) == Some(MountFiles(SavedIndex(d), DiskFiles(d), n).value[
      d.order[n] := FileSlot(Mount(d.files[d.order[n]].store.file, d.maxFileSize).value, d.files[d.order[n]].start)])
  {
    hide Mount;
  }

  lemma MountNone(d: FileDir)
    ensures MountFiles(SavedIndex(d), DiskFiles(d), 0) == Some(map[]) && Elements(d.order[..0]) == {}
  {
    hide SavedIndex, DiskFiles;
  }

  lemma {:induction false} MountsAll(d: FileDir, parts: seq<Blocks>, n: nat)
    requires Holds(d, parts) && n <= |parts| == |d.order|
    ensures var files := MountFiles(SavedIndex(d), DiskFiles(d), n);
      && files.Some? && files.value.Keys == Elements(d.order[..n])
      && forall j: nat | j < n :: Mounted(d, files.value, j)
  {
    hide Represents, Mount, Flat, Holds, SavedIndex, DiskFiles, MountFiles, Elements;
    if n == 0 {
      MountNone(d);
    } else {
      MountsAll(d, parts, n - 1);
      MountsSlot(d, parts, n - 1);
      MountNext(d, n - 1);
      HoldsShape(d, parts);
      MoreElements(d.order, n - 1);
      var files := MountFiles(SavedIndex(d), DiskFiles(d), n).value;
      var before := MountFiles(SavedIndex(d), DiskFiles(d), n - 1).value;
      forall j: nat | j < n ensures Mounted(d, files, j) {
        if j < n - 1 {
          assert Mounted(d, before, j);
        }
      }
    }
  }

  lemma MountedRanges(d: FileDir, parts: seq<Blocks>, files: map<nat, FileSlot>)
    requires Holds(d, parts) && |parts| == |d.order| && files.Keys == Elements(d.order)
    requires forall j: nat | j < |parts| :: Mounted(d, files, j)
    ensures RangesOf(files) == RangesOf(d.files) && |files| == |d.files|
  {
    hide Represents, Mount, Flat, Holds, Elements;
    HoldsShape(d, parts);
    assert |files| == |files.Keys| && |d.files| == |d.files.Keys|;
    forall id | id in files ensures RangesOf(files)[id] == RangesOf(d.files)[id] {
      var j := LaidPlace(RangesOf(d.files), d.order, parts, id);
      assert Mounted(d, files, j);
      MountsSlot(d, parts, j);
      FileOf(d, parts, j);
    }
  }

  /** Remounting the files leaves a directory that holds the same parts. */
  lemma MountHolds(d: FileDir, parts: seq<Blocks>, files: map<nat, FileSlot>, currentId: nat)
    requires Holds(d, parts) && |parts| == |d.order| && files.Keys == Elements(d.order)
    requires forall j: nat | j < |parts| :: Mounted(d, files, j)
    requires forall id | id in d.order :: id <= currentId
    ensures Holds(d.(files := files, currentId := currentId), parts)
  {
    hide Represents, Mount, Flat, RangesOf, Laid;
    var m := d.(files := files, currentId := currentId);
    MountedRanges(d, parts, files);
    forall j: nat | j < |parts| ensures FileHolds(m, parts, j) {
      assert FileHolds(d, parts, j);
      assert Mounted(d, files, j);
      MountsSlot(d, parts, j);
      assert d.order[j] in d.order;
    }
  }

  /** Mounting the saved index over the same files gives a directory that stores the same blocks. */
  lemma MountDirMeaning(d: FileDir, blocks: Blocks)
    requires Stores(d, blocks)
    ensures MountDir(SavedIndex(d), DiskFiles(d)).Some?
    ensures Stores(MountDir(SavedIndex(d), DiskFiles(d)).value, blocks)
  {
    hide Represents, Mount, Flat, Count, MountFiles, Holds, RangesOf, MountDir, Laid, Elements;
    var parts :| Holds(d, parts) && Flat(parts) == blocks;
    HoldsShape(d, parts);
    MountsAll(d, parts, |parts|);
    assert d.order[..|parts|] == d.order;
    var files := MountFiles(SavedIndex(d), DiskFiles(d), |parts|).value;
    MountUnfolds(d, files);
    MountHolds(d, parts, files, MaxId(d.order));
    MountedRanges(d, parts, files);
    CountAll(RangesOf(files), d.order, parts);
    StoresParts(MountDir(SavedIndex(d), DiskFiles(d)).value, parts);
  }

  lemma MountUnfolds(d: FileDir, files: map<nat, FileSlot>)
    requires d.maxFileSize >= MIN_MAX_SIZE && d.maxFileCount > 0
    requires MountFiles(SavedIndex(d), DiskFiles(d), |SavedIndex(d).entries|) == Some(files)
    ensures MountDir(SavedIndex(d), DiskFiles(d))
         == Some(d.(files := files, currentId := MaxId(d.order), total := Count(RangesOf(files), d.order)))
  {
    hide MountFiles, Count, RangesOf, MaxId;
    assert Ids(SavedIndex(d).entries) == d.order;
  }

  /** Mounting alone does not make the next append safe, but reading the last block, as a mounted ledger does, does. */
  lemma ReadLastMakesReady(d: FileDir, blocks: Blocks)
    requires Stores(d, blocks) && Headed(d)
    ensures blocks == [] ==> DirReady(d)
    ensures blocks != [] ==> DirReady(ReadBlock(d, |blocks| - 1).0)
  {
    hide Represents, Flat, Holds, Find, Read, Laid;
    var parts :| Holds(d, parts) && Flat(parts) == blocks;
    HoldsShape(d, parts);
    if d.currentId in d.files {
      CurrentIsLast(d, parts);
      var n := |parts| - 1;
      FileOf(d, parts, n);
      FlatNext(parts, n);
      assert parts[..n + 1] == parts;
      if blocks != [] {
        var i := FindMeaning(RangesOf(d.files), d.order, parts, |blocks| - 1);
        var k := |blocks| - 1 - |Flat(parts[..i])|;
        FileOf(d, parts, i);
        EnsureIndexBuilds(d.files[d.order[i]].store, parts[i]);
        ReadKeepsLimit(d.files[d.order[i]].store, k);
        if i < n {
          RangesApart(parts, i, n);
          FlatNext(parts, i);
        }
      }
    }
  }

  lemma RewindKeepsLimits(d: FileDir, index: nat)
    requires Headed(d)
    ensures RewindDir(d, index).0.maxFileCount == d.maxFileCount && RewindDir(d, index).0.maxFileSize == d.maxFileSize
  {
    hide Find, RewindTo, UpTo, Count, Below;
  }
}
