/** The top store as the object the program holds. Its directories are values here, changed by the functions proved for
    the directory store. */
module DirDirStores {
  import opened Numbers
  import opened Outcomes
  import opened FileFormat
  import opened Ranges
  import opened FileDirFormat
  import FileDirLaws
  import opened DirDirFormat
  import opened DirDirLaws
  import opened StoreRuns

  class DirDirStore {
    var maxDirCount: nat
    var maxFileCount: nat
    var maxFileSize: FileLimit
    var rootStore: Option<FileDir>
    var dirInfoMap: map<nat, DirSlot>
    var dirIdOrder: seq<nat>
    var currentDirId: nat
    var totalBlockCount: nat

    ghost function State(): DirDir
      reads this
    {
      DirDir(maxDirCount, maxFileCount, maxFileSize, rootStore, dirInfoMap, dirIdOrder, currentDirId, totalBlockCount)
    }

    ghost predicate Valid()
      reads this
    {
      exists blocks :: InUse(State(), blocks)
    }

    ghost predicate Contains(blocks: Blocks)
      reads this
    {
      InUse(State(), blocks)
    }

    constructor ()
      ensures State() == DirDir(0, 0, 0, None, map[], [], 0, 0)
    {
      maxDirCount, maxFileCount, maxFileSize, rootStore := 0, 0, 0, None;
      dirInfoMap, dirIdOrder, currentDirId, totalBlockCount := map[], [], 0, 0;
    }

    method Init(dirCount: nat, fileCount: nat, fileSize: FileLimit) returns (ok: bool)
      modifies this
      ensures ok <==> InitStore(dirCount, fileCount, fileSize).Some?
      ensures ok ==> State() == InitStore(dirCount, fileCount, fileSize).value
      ensures ok && dirCount > 1 ==> Contains([])
    {
      hide Keeps, StoreReady;
      maxDirCount, maxFileCount, maxFileSize, rootStore := dirCount, fileCount, fileSize, None;
      dirInfoMap, dirIdOrder, currentDirId, totalBlockCount := map[], [], 0, 0;
      if maxFileSize < MIN_MAX_SIZE || maxFileCount == 0 || maxDirCount == 0 {
        return false;
      }
      rootStore := InitDir(maxFileCount, maxFileSize);
      InitKeeps(dirCount, fileCount, fileSize);
      return true;
    }

    /** Mounts what is on disk: without listed subdirectories the root directory, else each of them in turn. */
    method Mount(disk: StoreDisk) returns (ok: bool)
      modifies this
      ensures Increasing(Ids(disk.entries)) ==> (ok <==> MountStore(disk).Some?)
      ensures Increasing(Ids(disk.entries)) && ok ==> State() == MountStore(disk).value
    {
      hide MountDir, Count, DirRanges;
      maxDirCount, maxFileCount, maxFileSize, rootStore := disk.maxDirCount, disk.maxFileCount, disk.maxFileSize, None;
      dirInfoMap, dirIdOrder, currentDirId, totalBlockCount := map[], [], 0, 0;
      if disk.entries == [] {
        if disk.root.None? {
          return false;
        }
        rootStore := MountDir(disk.root.value.index, disk.root.value.files);
        if rootStore.None? {
          return false;
        }
        totalBlockCount := rootStore.value.total;
      } else {
        ok := MountSubdirectories(disk);
        if !ok {
          return false;
        }
        UpdateCurrentDirId();
        if Increasing(dirIdOrder) {
          RecalculateTotalBlockCount();
        }
      }
      if maxFileSize < MIN_MAX_SIZE || maxFileCount == 0 || maxDirCount == 0 {
        return false;
      }
      return true;
    }

    method MountSubdirectories(disk: StoreDisk) returns (ok: bool)
      requires dirInfoMap == map[] && dirIdOrder == []
      modifies this`dirInfoMap, this`dirIdOrder
      ensures ok <==> MountDirs(disk, |disk.entries|).Some?
      ensures ok ==> dirInfoMap == MountDirs(disk, |disk.entries|).value
      ensures ok ==> dirIdOrder == Ids(disk.entries) && dirInfoMap.Keys == Elements(dirIdOrder)
    {
      hide MountDir, Elements;
      MountNothing(disk);
      var n := 0;
      while n < |disk.entries|
        invariant n <= |disk.entries|
        invariant dirIdOrder == Ids(disk.entries)[..n]
        invariant MountDirs(disk, n) == Some(dirInfoMap)
        invariant dirInfoMap.Keys == Elements(dirIdOrder)
      {
        var (id, start) := disk.entries[n];
        MoreElements(Ids(disk.entries), n);
        MountDirsFail(disk, n + 1, |disk.entries|);
        if id !in disk.subdirs {
          return false;
        }
        var dir := MountDir(disk.subdirs[id].index, disk.subdirs[id].files);
        if dir.None? {
          return false;
        }
        assert dirIdOrder + [id] == Ids(disk.entries)[..n + 1];
        dirInfoMap := dirInfoMap[id := DirSlot(dir.value, start)];
        dirIdOrder := dirIdOrder + [id];
        n := n + 1;
      }
      assert dirIdOrder == Ids(disk.entries);
      return true;
    }

    method UpdateCurrentDirId()
      requires currentDirId == 0 && dirInfoMap.Keys == Elements(dirIdOrder)
      modifies this`currentDirId
      ensures currentDirId == MaxId(dirIdOrder)
    {
      var remaining := dirInfoMap.Keys;
      while remaining != {}
        invariant remaining <= dirInfoMap.Keys
        invariant currentDirId == 0 || currentDirId in dirIdOrder
        invariant forall id | id in dirInfoMap && id !in remaining :: id <= currentDirId
      {
        var id :| id in remaining;
        if id > currentDirId {
          currentDirId := id;
        }
        remaining := remaining - {id};
      }
      assert forall id | id in dirIdOrder :: id in dirInfoMap;
    }

    method GetActiveDirStore(size: nat) returns (r: Option<nat>)
      modifies this
      ensures (State(), r) == ActiveDir(old(State()), size)
    {
      if currentDirId in dirInfoMap && DirCanFit(dirInfoMap[currentDirId].store, size) {
        return Some(currentDirId);
      }
      if |dirInfoMap| >= maxDirCount {
        return None;
      }
      currentDirId := currentDirId + 1;
      var dir := InitDir(maxFileCount, maxFileSize);
      if dir.None? {
        return None;
      }
      dirInfoMap := dirInfoMap[currentDirId := DirSlot(dir.value, totalBlockCount)];
      dirIdOrder := dirIdOrder + [currentDirId];
      return Some(currentDirId);
    }

    method RelocateRootStore() returns (ok: bool)
      modifies this
      ensures ok <==> Relocated(old(State())).Some?
      ensures ok ==> State() == Relocated(old(State())).value
      ensures !ok ==> State() == old(State())
    {
      hide Reopened;
      if rootStore.None? {
        return false;
      }
      var moved := Reopened(rootStore.value);
      if moved.None? {
        return false;
      }
      currentDirId := 1;
      dirInfoMap := dirInfoMap[currentDirId := DirSlot(moved.value, 0)];
      dirIdOrder := dirIdOrder + [currentDirId];
      rootStore := None;
      return true;
    }

    /** The last part of an append, once there is no root store. */
    method AppendToSubdirectory(block: Bytes) returns (r: Option<nat>)
      requires rootStore.None? && StoreHeaded(State())
      modifies this
      ensures (State(), r) == AppendToDir(old(State()), block)
    {
      hide AppendBlock, Headed, ActiveDir;
      ghost var was := State();
      ActiveHeaded(was, |block|);
      var id := GetActiveDirStore(|block|);
      if id.None? {
        return None;
      }
      var written := AppendBlock(dirInfoMap[id.value].store, block);
      dirInfoMap := dirInfoMap[id.value := dirInfoMap[id.value].(store := written.0)];
      if written.1.None? {
        return None;
      }
      totalBlockCount := totalBlockCount + 1;
      return Some(totalBlockCount - 1);
    }

    method Append(block: Bytes) returns (r: Option<nat>)
      requires Valid() && StoreHeaded(State())
      modifies this
      ensures (State(), r) == AppendStore(old(State()), block)
      ensures Valid() && (r.Some? <==> old(StoreAccepts(State(), |block|)))
      ensures forall blocks :: old(Contains(blocks)) ==>
        Contains(if r.Some? then blocks + [block] else blocks) && (r.Some? ==> r.value == |blocks|)
    {
      hide AppendBlock, Headed, AppendToDir, Relocated, InUse, StoreAccepts;
      ghost var was := State();
      ghost var some :| InUse(was, some);
      StepKeeps(was, AppendOp(block));
      AppendOutcome(was, block);
      RelocatedHeaded(was, some);
      if rootStore.Some? {
        if DirCanFit(rootStore.value, |block|) {
          var written := AppendBlock(rootStore.value, block);
          rootStore := Some(written.0);
          if written.1.None? {
            return None;
          }
          totalBlockCount := totalBlockCount + 1;
          return Some(totalBlockCount - 1);
        }
        var ok := RelocateRootStore();
        if !ok {
          return None;
        }
      }
      r := AppendToSubdirectory(block);
    }

    /** The first subdirectory met whose range holds the block; at most one does. */
    method FindBlockDir(blockId: nat) returns (dirId: nat, indexWithinDir: nat)
      requires Valid() && rootStore.None?
      ensures (dirId, indexWithinDir) == Find(DirRanges(dirInfoMap), dirIdOrder, blockId)
    {
      hide Find, Laid, DirsHold, Flat, StoreReady;
      ghost var some :| InUse(State(), some);
      ghost var parts :| DirsHold(State(), parts) && Flat(parts) == some;
      DirsShape(State(), parts);
      ghost var i := FindMeaning(DirRanges(dirInfoMap), dirIdOrder, parts, blockId);
      var remaining := dirInfoMap.Keys;
      while remaining != {}
        invariant remaining <= dirInfoMap.Keys
        invariant forall id | id in dirInfoMap && id !in remaining :: !Within(DirRanges(dirInfoMap), id, blockId)
      {
        var id :| id in remaining;
        var slot := dirInfoMap[id];
        if slot.start <= blockId < slot.start + slot.store.total {
          FoundIsTheOne(DirRanges(dirInfoMap), dirIdOrder, parts, id, blockId);
          return id, blockId - slot.start;
        }
        remaining := remaining - {id};
      }
      if blockId < |Flat(parts)| {
        DirOf(State(), parts, i);
      }
      return 0, 0;
    }

    method Read(index: nat) returns (r: Option<Bytes>)
      requires Valid() && StoreHeaded(State())
      modifies this
      ensures (State(), r) == ReadStore(old(State()), index)
      ensures Valid()
      ensures forall blocks :: old(Contains(blocks)) ==>
        Contains(blocks) && r == if index < |blocks| then Some(blocks[index]) else None
    {
      hide ReadBlock, Headed, InUse, Find;
      ghost var was := State();
      StepKeeps(was, ReadOp(index));
      ReadOutcome(was, index);
      if rootStore.Some? {
        if index >= rootStore.value.total {
          return None;
        }
        var read := ReadBlock(rootStore.value, index);
        rootStore := Some(read.0);
        return read.1;
      }
      var id, k := FindBlockDir(index);
      if id == 0 && k == 0 && index != 0 {
        return None;
      }
      if id !in dirInfoMap {
        return None;
      }
      var read := ReadBlock(dirInfoMap[id].store, k);
      dirInfoMap := dirInfoMap[id := dirInfoMap[id].(store := read.0)];
      return read.1;
    }

    method RemoveAfter(dirId: nat)
      requires Elements(dirIdOrder) == dirInfoMap.Keys
      modifies this`dirInfoMap, this`dirIdOrder
      ensures dirInfoMap == Below(old(dirInfoMap), dirId)
      ensures dirIdOrder == UpTo(old(dirIdOrder), dirId)
    {
      hide Without, UpTo, Elements;
      var dirsToRemove := Later(dirInfoMap, dirId);
      ghost var gone := {};
      WithoutNone(dirIdOrder);
      LaterGone(dirInfoMap, dirIdOrder, dirId);
      while dirsToRemove != {}
        invariant gone !! dirsToRemove && gone + dirsToRemove == Later(old(dirInfoMap), dirId)
        invariant dirInfoMap == old(dirInfoMap) - gone
        invariant dirIdOrder == Without(old(dirIdOrder), gone)
      {
        var id :| id in dirsToRemove;
        WithoutOneMore(old(dirIdOrder), gone, id);
        dirInfoMap := dirInfoMap - {id};
        dirIdOrder := Without(dirIdOrder, {id});
        gone := gone + {id};
        dirsToRemove := dirsToRemove - {id};
      }
      assert gone == Later(old(dirInfoMap), dirId);
    }

    method RecalculateTotalBlockCount()
      requires Increasing(dirIdOrder) && Elements(dirIdOrder) == dirInfoMap.Keys
      modifies this`totalBlockCount
      ensures totalBlockCount == Count(DirRanges(dirInfoMap), dirIdOrder)
    {
      totalBlockCount := 0;
      var remaining := dirInfoMap.Keys;
      while remaining != {}
        invariant remaining <= dirInfoMap.Keys
        invariant totalBlockCount + Sum(DirRanges(dirInfoMap), remaining) == Sum(DirRanges(dirInfoMap), dirInfoMap.Keys)
      {
        var id :| id in remaining;
        SumRemove(DirRanges(dirInfoMap), remaining, id);
        totalBlockCount := totalBlockCount + dirInfoMap[id].store.total;
        remaining := remaining - {id};
      }
      SumInOrder(DirRanges(dirInfoMap), dirIdOrder);
    }

    method Rewind(index: nat) returns (ok: bool)
      requires Valid() && StoreHeaded(State())
      modifies this
      ensures (State(), ok) == RewindStore(old(State()), index)
      ensures Valid() && (ok <==> index <= old(totalBlockCount))
      ensures forall blocks :: old(Contains(blocks)) ==>
        Contains(if index < |blocks| then blocks[..index] else if index == |blocks| then [] else blocks)
    {
      hide RewindDir, RewindDirAt, Headed, InUse, Find, DirRanges;
      ghost var was := State();
      StepKeeps(was, TruncateOp(index));
      RewindOutcome(was, index);
      if index > totalBlockCount {
        return false;
      }
      if rootStore.Some? {
        var rewound := RewindDir(rootStore.value, index);
        rootStore := Some(rewound.0);
        if !rewound.1 {
          return false;
        }
        totalBlockCount := rootStore.value.total;
        return true;
      }
      var dirId, k := FindBlockDir(index);
      ok := RewindFound(dirId, k);
    }

    method RewindFound(dirId: nat, k: nat) returns (ok: bool)
      requires StoreHeaded(State()) && Increasing(dirIdOrder) && Elements(dirIdOrder) == dirInfoMap.Keys
      modifies this`dirInfoMap, this`dirIdOrder, this`totalBlockCount
      ensures (State(), ok) == RewindDirAt(old(State()), dirId, k)
    {
      hide RewindDir, Headed, Count, UpTo, DirRanges;
      ghost var was := State();
      RemoveAfter(dirId);
      if dirId > 0 && dirId in dirInfoMap {
        var rewound := RewindDir(dirInfoMap[dirId].store, k);
        dirInfoMap := dirInfoMap[dirId := dirInfoMap[dirId].(store := rewound.0)];
        if !rewound.1 {
          return false;
        }
      }
      OrderKept(was.order, dirId);
      RecalculateTotalBlockCount();
      return true;
    }
  }

  lemma MountNothing(disk: StoreDisk)
    ensures MountDirs(disk, 0) == Some(map[]) && Elements([]) == {}
  {
  }

  lemma {:induction false} MountDirsFail(disk: StoreDisk, n: nat, m: nat)
    requires n <= m <= |disk.entries|
    ensures MountDirs(disk, n).None? ==> MountDirs(disk, m).None?
  {
    hide MountDir;
    if n < m {
      MountDirsFail(disk, n, m - 1);
    }
  }

  lemma ActiveHeaded(s: DirDir, size: nat)
    requires StoreHeaded(s)
    ensures StoreHeaded(ActiveDir(s, size).0) && ActiveDir(s, size).0.total == s.total
  {
    hide DirCanFit;
  }

  lemma RelocatedHeaded(s: DirDir, blocks: Blocks)
    requires InUse(s, blocks)
    ensures Relocated(s).Some? ==> Relocated(s).value.root.None? && StoreHeaded(Relocated(s).value)
  {
    hide Headed, StoreReady, DirsHold, Reopened, RootHolds;
    if s.root.Some? {
      RootIsRoot(s, blocks);
      RelocatedKeeps(s, blocks);
      KeepsParts(Relocated(s).value, [blocks]);
      KeepsHeaded(Relocated(s).value, Flat([blocks]));
    }
  }

  lemma RootIsRoot(s: DirDir, blocks: Blocks)
    requires Keeps(s, blocks) && s.root.Some?
    ensures RootHolds(s, blocks)
  {
    hide RootHolds, Flat;
  }

  lemma StepKeeps(s: DirDir, op: StoreOp)
    requires (exists blocks :: InUse(s, blocks)) && StoreHeaded(s) && !op.RemountOp?
    ensures exists blocks :: InUse(StoreStep(s, op).value, blocks)
    ensures forall blocks | InUse(s, blocks) :: InUse(StoreStep(s, op).value, ListStep(blocks, op, Accepted(s, op)))
  {
    hide InUse, ListStep, StoreHeaded, AppendStore, ReadStore, RewindStore;
    forall blocks | InUse(s, blocks) ensures InUse(StoreStep(s, op).value, ListStep(blocks, op, Accepted(s, op))) {
      StepRefines(s, blocks, op);
    }
    var some :| InUse(s, some);
    assert InUse(StoreStep(s, op).value, ListStep(some, op, Accepted(s, op)));
  }

  lemma AppendOutcome(s: DirDir, block: Bytes)
    requires (exists blocks :: InUse(s, blocks)) && StoreHeaded(s)
    ensures AppendStore(s, block).1.Some? <==> StoreAccepts(s, |block|)
    ensures forall blocks | InUse(s, blocks) && StoreAccepts(s, |block|) :: AppendStore(s, block).1 == Some(|blocks|)
  {
    hide Keeps, StoreReady, StoreHeaded, AppendStore, StoreAccepts;
    forall blocks | InUse(s, blocks)
      ensures AppendStore(s, block).1 == if StoreAccepts(s, |block|) then Some(|blocks|) else None
    {
      AppendStoreMeaning(s, blocks, block);
    }
  }

  lemma ReadOutcome(s: DirDir, index: nat)
    requires StoreHeaded(s)
    ensures forall blocks | InUse(s, blocks) ::
      ReadStore(s, index).1 == if index < |blocks| then Some(blocks[index]) else None
  {
    hide Keeps, StoreReady, StoreHeaded, ReadStore;
    forall blocks | InUse(s, blocks)
      ensures ReadStore(s, index).1 == if index < |blocks| then Some(blocks[index]) else None
    {
      ReadStoreMeaning(s, blocks, index);
    }
  }

  lemma RewindOutcome(s: DirDir, index: nat)
    requires (exists blocks :: InUse(s, blocks)) && StoreHeaded(s)
    ensures RewindStore(s, index).1 <==> index <= s.total
    ensures s.root.None? ==> Increasing(s.order) && Elements(s.order) == s.dirs.Keys
  {
    hide StoreReady, StoreHeaded, RewindStore, RootHolds, DirsHold;
    var blocks :| InUse(s, blocks);
    RewindStoreMeaning(s, blocks, index);
    KeepsHeaded(s, blocks);
    if s.root.None? && !RootHolds(s, blocks) {
      var parts :| DirsHold(s, parts) && Flat(parts) == blocks;
      DirsShape(s, parts);
    }
    RootMode(s, blocks);
  }

  lemma RootMode(s: DirDir, blocks: Blocks)
    ensures RootHolds(s, blocks) ==> s.root.Some?
  {
  }
}
