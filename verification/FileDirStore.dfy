/** The directory store as the object the program holds. Its files sit in an unordered map, so its methods visit them in
    any order; the functions of `FileDirFormat`, which visit them in the recorded order, say what comes out. */
module FileDirStores {
  import opened Numbers
  import opened Outcomes
  import opened FileFormat
  import opened FileLaws
  import opened Ranges
  import opened FileDirFormat
  import opened FileDirLaws

  class FileDirStore {
    var maxFileCount: nat
    var maxFileSize: FileLimit
    var fileInfoMap: map<nat, FileSlot>
    var fileIdOrder: seq<nat>
    var currentFileId: nat
    var totalBlockCount: nat

    ghost function State(): FileDir
      reads this
    {
      FileDir(maxFileCount, maxFileSize, fileInfoMap, fileIdOrder, currentFileId, totalBlockCount)
    }

    /** The store holds some list of blocks, and its next append is safe. */
    ghost predicate Valid()
      reads this
    {
      (exists parts :: Holds(State(), parts)) && DirReady(State())
    }

    ghost predicate Contains(blocks: Blocks)
      reads this
    {
      Stores(State(), blocks)
    }

    constructor ()
      ensures State() == FileDir(0, 0, map[], [], 0, 0)
    {
      maxFileCount, maxFileSize, fileInfoMap, fileIdOrder, currentFileId, totalBlockCount := 0, 0, map[], [], 0, 0;
    }

    method Init(fileCount: nat, fileSize: FileLimit) returns (ok: bool)
      modifies this
      ensures ok <==> InitDir(fileCount, fileSize).Some?
      ensures ok ==> State() == InitDir(fileCount, fileSize).value && Valid() && Contains([])
    {
      if fileSize < MIN_MAX_SIZE || fileCount == 0 {
        return false;
      }
      maxFileCount, maxFileSize := fileCount, fileSize;
      currentFileId, fileInfoMap, fileIdOrder, totalBlockCount := 0, map[], [], 0;
      InitStores(fileCount, fileSize);
      return true;
    }

    /** Mounts what an index file lists: each file is opened without its block index, then the totals are recomputed. */
    method Mount(index: DirIndex, disk: map<nat, Bytes>) returns (ok: bool)
      modifies this
      ensures Increasing(Ids(index.entries)) ==> (ok <==> MountDir(index, disk).Some?)
      ensures Increasing(Ids(index.entries)) && ok ==> State() == MountDir(index, disk).value
    {
      hide FileFormat.Mount, Count;
      currentFileId, fileInfoMap, fileIdOrder, totalBlockCount := 0, map[], [], 0;
      maxFileCount, maxFileSize := index.maxFileCount, index.maxFileSize;
      if maxFileSize < MIN_MAX_SIZE || maxFileCount == 0 {
        return false;
      }
      ok := MountBlockFiles(index, disk);
      if !ok {
        return false;
      }
      assert Ids(index.entries)[..|index.entries|] == Ids(index.entries);
      UpdateCurrentFileId();
      RecalculateTotalBlockCount();
    }

    method MountBlockFiles(index: DirIndex, disk: map<nat, Bytes>) returns (ok: bool)
      requires fileInfoMap == map[] && fileIdOrder == [] && maxFileSize == index.maxFileSize
      modifies this`fileInfoMap, this`fileIdOrder
      ensures ok <==> MountFiles(index, disk, |index.entries|).Some?
      ensures ok ==> fileInfoMap == MountFiles(index, disk, |index.entries|).value
      ensures ok ==> fileIdOrder == Ids(index.entries) && fileInfoMap.Keys == Elements(fileIdOrder)
    {
      hide FileFormat.Mount, Elements;
      MountNothing(index, disk);
      var n := 0;
      while n < |index.entries|
        invariant n <= |index.entries|
        invariant fileIdOrder == Ids(index.entries)[..n]
        invariant MountFiles(index, disk, n) == Some(fileInfoMap)
        invariant fileInfoMap.Keys == Elements(fileIdOrder)
      {
        var (id, start) := index.entries[n];
        MoreElements(Ids(index.entries), n);
        MountFilesFail(index, disk, n + 1, |index.entries|);
        if id !in disk {
          return false;
        }
        var store := FileFormat.Mount(disk[id], maxFileSize);
        if store.None? {
          return false;
        }
        assert fileIdOrder + [id] == Ids(index.entries)[..n + 1];
        fileInfoMap := fileInfoMap[id := FileSlot(store.value, start)];
        fileIdOrder := fileIdOrder + [id];
        n := n + 1;
      }
      assert fileIdOrder == Ids(index.entries);
      return true;
    }

    method UpdateCurrentFileId()
      requires currentFileId == 0 && fileInfoMap.Keys == Elements(fileIdOrder)
      modifies this`currentFileId
      ensures currentFileId == MaxId(fileIdOrder)
    {
      var remaining := fileInfoMap.Keys;
      while remaining != {}
        invariant remaining <= fileInfoMap.Keys
        invariant currentFileId == 0 || currentFileId in fileIdOrder
        invariant forall id | id in fileInfoMap && id !in remaining :: id <= currentFileId
      {
        var id :| id in remaining;
        if id > currentFileId {
          currentFileId := id;
        }
        remaining := remaining - {id};
      }
      assert forall id | id in fileIdOrder :: id in fileInfoMap;
    }

    method CanFit(size: nat) returns (r: bool)
      ensures r <==> DirCanFit(State(), size)
    {
      if size > maxFileSize {
        return false;
      }
      if |fileInfoMap| >= maxFileCount {
        return false;
      }
      return true;
    }

    method GetActiveBlockFile(size: nat) returns (r: Option<nat>)
      modifies this
      ensures (State(), r) == ActiveFile(old(State()), size)
    {
      if currentFileId in fileInfoMap && FileFormat.CanFit(fileInfoMap[currentFileId].store, size) {
        return Some(currentFileId);
      }
      if |fileInfoMap| >= maxFileCount {
        return None;
      }
      currentFileId := currentFileId + 1;
      var file := FileFormat.Init(maxFileSize);
      if file.None? {
        return None;
      }
      fileInfoMap := fileInfoMap[currentFileId := FileSlot(file.value, totalBlockCount)];
      fileIdOrder := fileIdOrder + [currentFileId];
      return Some(currentFileId);
    }

    method AppendBlock(block: Bytes) returns (r: Option<nat>)
      requires Valid() && Headed(State())
      modifies this
      ensures (State(), r) == FileDirFormat.AppendBlock(old(State()), block)
      ensures Valid() && (r.Some? <==> old(Accepts(State(), |block|)))
      ensures forall blocks :: old(Contains(blocks)) ==>
        Contains(if r.Some? then blocks + [block] else blocks) && (r.Some? ==> r.value == |blocks|)
    {
      hide Holds, FileFormat.Write, Headed, ActiveFile, DirReady, FileDirFormat.AppendBlock, Stores, Flat, Accepts;
      ghost var was := State();
      forall blocks | Stores(was, blocks)
        ensures var e := FileDirFormat.AppendBlock(was, block);
          && Stores(e.0, if Accepts(was, |block|) then blocks + [block] else blocks) && DirReady(e.0)
          && (e.1 == if Accepts(was, |block|) then Some(|blocks|) else None)
      {
        AppendBlockMeaning(was, blocks, block);
      }
      ghost var parts :| Holds(was, parts);
      StoresParts(was, parts);
      StoresSome(FileDirFormat.AppendBlock(was, block).0, if Accepts(was, |block|) then Flat(parts) + [block] else Flat(parts));
      AppendUnfolds(was, block);
      var id := GetActiveBlockFile(|block|);
      if id.None? {
        return None;
      }
      var written := FileFormat.Write(fileInfoMap[id.value].store, block);
      fileInfoMap := fileInfoMap[id.value := fileInfoMap[id.value].(store := written.0)];
      if written.1.None? {
        return None;
      }
      totalBlockCount := totalBlockCount + 1;
      return Some(totalBlockCount - 1);
    }

    /** The first file met whose range holds the block; since at most one does, it does not matter which is met first. */
    method FindBlockFile(blockId: nat) returns (fileId: nat, indexWithinFile: nat)
      requires Valid()
      ensures (fileId, indexWithinFile) == Find(RangesOf(fileInfoMap), fileIdOrder, blockId)
    {
      hide Represents, Flat, Find, DirReady, Laid, Holds;
      ghost var parts :| Holds(State(), parts);
      HoldsShape(State(), parts);
      ghost var i := FindMeaning(RangesOf(fileInfoMap), fileIdOrder, parts, blockId);
      var remaining := fileInfoMap.Keys;
      while remaining != {}
        invariant remaining <= fileInfoMap.Keys
        invariant forall id | id in fileInfoMap && id !in remaining :: !Within(RangesOf(fileInfoMap), id, blockId)
      {
        var id :| id in remaining;
        var slot := fileInfoMap[id];
        if slot.start <= blockId < slot.start + slot.store.blockCount {
          FoundIsTheOne(RangesOf(fileInfoMap), fileIdOrder, parts, id, blockId);
          return id, blockId - slot.start;
        }
        remaining := remaining - {id};
      }
      if blockId < |Flat(parts)| {
        FileOf(State(), parts, i);
      }
      return 0, 0;
    }

    method ReadBlock(index: nat) returns (r: Option<Bytes>)
      requires Valid() && Headed(State())
      modifies this`fileInfoMap
      ensures (State(), r) == FileDirFormat.ReadBlock(old(State()), index)
      ensures Valid()
      ensures forall blocks :: old(Contains(blocks)) ==>
        Contains(blocks) && r == if index < |blocks| then Some(blocks[index]) else None
    {
      hide Holds, Read, Headed, Find;
      ghost var was := State();
      forall blocks | Stores(was, blocks)
        ensures var e := FileDirFormat.ReadBlock(was, index);
          && Stores(e.0, blocks) && DirReady(e.0)
          && e.1 == if index < |blocks| then Some(blocks[index]) else None
      {
        ReadBlockMeaning(was, blocks, index);
      }
      ghost var parts :| Holds(was, parts);
      assert Stores(was, Flat(parts));
      var id, k := FindBlockFile(index);
      if id == 0 && k == 0 && index != 0 {
        return None;
      }
      if id !in fileInfoMap {
        return None;
      }
      assert fileInfoMap[id].store.currentSize <= |fileInfoMap[id].store.file| by { HeadedAt(was, id); }
      var read := Read(fileInfoMap[id].store, k);
      fileInfoMap := fileInfoMap[id := fileInfoMap[id].(store := read.0)];
      return read.1;
    }

    method RewindTo(index: nat) returns (ok: bool)
      requires Valid() && Headed(State())
      modifies this
      ensures (State(), ok) == RewindDir(old(State()), index)
      ensures Valid() && (ok <==> index <= old(totalBlockCount))
      ensures forall blocks :: old(Contains(blocks)) ==>
        Contains(if index < |blocks| then blocks[..index] else if index == |blocks| then [] else blocks)
    {
      hide Holds, RewindAt, Headed, Find, Stores, DirReady, RangesOf;
      ghost var was := State();
      RewindKeeps(was, index);
      if index > totalBlockCount {
        return false;
      }
      var fileId, k := FindBlockFile(index);
      ok := RewindFound(fileId, k);
    }

    method RewindFound(fileId: nat, k: nat) returns (ok: bool)
      requires Headed(State()) && Increasing(fileIdOrder) && Elements(fileIdOrder) == fileInfoMap.Keys
      modifies this`fileInfoMap, this`fileIdOrder, this`totalBlockCount
      ensures (State(), ok) == RewindAt(old(State()), fileId, k)
    {
      hide FileFormat.RewindTo, Headed, Count, UpTo, RangesOf;
      ghost var was := State();
      RemoveAfter(fileId);
      if fileId > 0 && fileId in fileInfoMap {
        HeadedAt(was, fileId);
        var rewound := FileFormat.RewindTo(fileInfoMap[fileId].store, k);
        fileInfoMap := fileInfoMap[fileId := fileInfoMap[fileId].(store := rewound.0)];
        if !rewound.1 {
          return false;
        }
      }
      OrderKept(was.order, fileId);
      RecalculateTotalBlockCount();
      return true;
    }

    /** Forgetting the files behind `fileId`: first they are listed, then removed one by one. */
    method RemoveAfter(fileId: nat)
      requires Elements(fileIdOrder) == fileInfoMap.Keys
      modifies this`fileInfoMap, this`fileIdOrder
      ensures fileInfoMap == Below(old(fileInfoMap), fileId)
      ensures fileIdOrder == UpTo(old(fileIdOrder), fileId)
    {
      hide Without, UpTo, Elements;
      var filesToRemove := Later(fileInfoMap, fileId);
      ghost var gone := {};
      WithoutNone(fileIdOrder);
      LaterGone(fileInfoMap, fileIdOrder, fileId);
      while filesToRemove != {}
        invariant gone !! filesToRemove && gone + filesToRemove == Later(old(fileInfoMap), fileId)
        invariant fileInfoMap == old(fileInfoMap) - gone
        invariant fileIdOrder == Without(old(fileIdOrder), gone)
      {
        var id :| id in filesToRemove;
        WithoutOneMore(old(fileIdOrder), gone, id);
        fileInfoMap := fileInfoMap - {id};
        fileIdOrder := Without(fileIdOrder, {id});
        gone := gone + {id};
        filesToRemove := filesToRemove - {id};
      }
      assert gone == Later(old(fileInfoMap), fileId);
    }

    method RecalculateTotalBlockCount()
      modifies this`totalBlockCount
      ensures totalBlockCount == Sum(RangesOf(fileInfoMap), fileInfoMap.Keys)
      ensures Increasing(fileIdOrder) && Elements(fileIdOrder) == fileInfoMap.Keys ==>
        totalBlockCount == Count(RangesOf(fileInfoMap), fileIdOrder)
    {
      totalBlockCount := 0;
      var remaining := fileInfoMap.Keys;
      while remaining != {}
        invariant remaining <= fileInfoMap.Keys
        invariant totalBlockCount + Sum(RangesOf(fileInfoMap), remaining) == Sum(RangesOf(fileInfoMap), fileInfoMap.Keys)
      {
        var id :| id in remaining;
        SumRemove(RangesOf(fileInfoMap), remaining, id);
        totalBlockCount := totalBlockCount + fileInfoMap[id].store.blockCount;
        remaining := remaining - {id};
      }
      if Increasing(fileIdOrder) && Elements(fileIdOrder) == fileInfoMap.Keys {
        SumInOrder(RangesOf(fileInfoMap), fileIdOrder);
      }
    }
  }

  lemma MountNothing(index: DirIndex, disk: map<nat, Bytes>)
    ensures MountFiles(index, disk, 0) == Some(map[]) && Elements([]) == {}
  {
  }

  lemma {:induction false} MountFilesFail(index: DirIndex, disk: map<nat, Bytes>, n: nat, m: nat)
    requires n <= m <= |index.entries|
    ensures MountFiles(index, disk, n).None? ==> MountFiles(index, disk, m).None?
  {
    hide FileFormat.Mount;
    if n < m {
      MountFilesFail(index, disk, n, m - 1);
    }
  }

  lemma StoresSome(d: FileDir, blocks: Blocks)
    requires Stores(d, blocks)
    ensures exists parts :: Holds(d, parts)
  {
  }

  lemma AppendUnfolds(d: FileDir, block: Bytes)
    requires Headed(d)
    ensures var (chosen, id) := ActiveFile(d, |block|);
      && (id.None? ==> FileDirFormat.AppendBlock(d, block) == (chosen, None))
      && (id.Some? ==> |chosen.files[id.value].store.file| >= HEADER_SIZE)
      && (id.Some? ==>
            var written := FileFormat.Write(chosen.files[id.value].store, block);
            var kept := chosen.(files := chosen.files[id.value := chosen.files[id.value].(store := written.0)]);
            FileDirFormat.AppendBlock(d, block)
              == if written.1.None? then (kept, None) else (kept.(total := d.total + 1), Some(d.total)))
      && chosen.total == d.total
  {
    hide FileFormat.Write;
  }

  lemma RewindKeeps(d: FileDir, index: nat)
    requires (exists parts :: Holds(d, parts)) && DirReady(d) && Headed(d)
    ensures (exists parts :: Holds(RewindDir(d, index).0, parts)) && DirReady(RewindDir(d, index).0)
    ensures RewindDir(d, index).1 <==> index <= d.total
    ensures Increasing(d.order) && Elements(d.order) == d.files.Keys
    ensures forall blocks | Stores(d, blocks) :: Stores(RewindDir(d, index).0,
      if index < |blocks| then blocks[..index] else if index == |blocks| then [] else blocks)
  {
    hide Holds, Headed, Stores, DirReady, Flat, RewindDir;
    var parts :| Holds(d, parts);
    HoldsShape(d, parts);
    StoresParts(d, parts);
    RewindDirMeaning(d, Flat(parts), index);
    StoresSome(RewindDir(d, index).0,
      if index < |Flat(parts)| then Flat(parts)[..index] else if index == |Flat(parts)| then [] else Flat(parts));
    forall blocks | Stores(d, blocks)
      ensures Stores(RewindDir(d, index).0,
        if index < |blocks| then blocks[..index] else if index == |blocks| then [] else blocks)
    {
      RewindDirMeaning(d, blocks, index);
    }
  }

  lemma HeadedAt(d: FileDir, id: nat)
    requires Headed(d) && id in d.files
    ensures HEADER_SIZE <= |d.files[id].store.file| && d.files[id].store.currentSize <= |d.files[id].store.file|
  {
  }
}
