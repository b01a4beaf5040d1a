/** The top store: one directory of block files until it is full, then numbered subdirectories. The operations as
    functions of its fields; reaching the limit of subdirectories ends in a failed append. */
module DirDirFormat {
  import opened Numbers
  import opened Outcomes
  import opened FileFormat
  import opened Ranges
  import opened FileDirFormat

  datatype DirSlot = DirSlot(store: FileDir, start: nat)

  datatype DirDir = DirDir(
    maxDirCount: nat, maxFileCount: nat, maxFileSize: FileLimit,
    root: Option<FileDir>, dirs: map<nat, DirSlot>, order: seq<nat>, currentId: nat, total: nat)

  function InitStore(maxDirCount: nat, maxFileCount: nat, maxFileSize: FileLimit): Option<DirDir> {
    if maxFileSize < MIN_MAX_SIZE || maxFileCount == 0 || maxDirCount == 0 then None
    else Some(DirDir(maxDirCount, maxFileCount, maxFileSize, InitDir(maxFileCount, maxFileSize), map[], [], 0, 0))
  }

  predicate StoreHeaded(s: DirDir) {
    && (s.root.Some? ==> Headed(s.root.value))
    && forall id | id in s.dirs :: Headed(s.dirs[id].store)
  }

  function DirRanges(dirs: map<nat, DirSlot>): (t: Table)
    ensures t.Keys == dirs.Keys
  {
    map id | id in dirs :: Range(dirs[id].start, dirs[id].store.total)
  }

  function WithDir(s: DirDir, id: nat, store: FileDir): DirDir
    requires id in s.dirs
  {
    s.(dirs := s.dirs[id := s.dirs[id].(store := store)])
  }

  /** Every file closed and mounted again, as after its directory has been renamed. */
  function Reopened(d: FileDir): Option<FileDir> {
    match MountFiles(SavedIndex(d), DiskFiles(d), |d.order|)
    case None => None
    case Some(files) => Some(d.(files := files))
  }

  /** The root directory becomes subdirectory 1. */
  function Relocated(s: DirDir): Option<DirDir> {
    if s.root.None? then None
    else
      match Reopened(s.root.value)
      case None => None
      case Some(d) => Some(s.(root := None, currentId := 1, dirs := s.dirs[1 := DirSlot(d, 0)], order := s.order + [1]))
  }

  predicate CurrentDirFits(s: DirDir, size: nat) {
    s.currentId in s.dirs && DirCanFit(s.dirs[s.currentId].store, size)
  }

  /** The subdirectory an append goes to: the current one if it claims room, else a new one while there may be more. */
  function ActiveDir(s: DirDir, size: nat): (r: (DirDir, Option<nat>))
    ensures r.1.Some? ==> r.1.value in r.0.dirs
  {
    if CurrentDirFits(s, size) then (s, Some(s.currentId))
    else if |s.dirs| >= s.maxDirCount then (s, None)
    else
      var id := s.currentId + 1;
      match InitDir(s.maxFileCount, s.maxFileSize)
      case None => (s.(currentId := id), None)
      case Some(d) => (s.(currentId := id, dirs := s.dirs[id := DirSlot(d, s.total)], order := s.order + [id]), Some(id))
  }

  function AppendToDir(s: DirDir, block: Bytes): (DirDir, Option<nat>)
    requires StoreHeaded(s)
  {
    match ActiveDir(s, |block|)
    case (chosen, None) => (chosen, None)
    case (chosen, Some(id)) =>
      var written := AppendBlock(chosen.dirs[id].store, block);
      var kept := WithDir(chosen, id, written.0);
      if written.1.None? then (kept, None) else (kept.(total := s.total + 1), Some(s.total))
  }

  /** Appending: into the root while it claims room; a full root is relocated first. */
  function AppendStore(s: DirDir, block: Bytes): (DirDir, Option<nat>)
    requires StoreHeaded(s)
  {
    if s.root.None? then AppendToDir(s, block)
    else if DirCanFit(s.root.value, |block|) then
      var written := AppendBlock(s.root.value, block);
      var kept := s.(root := Some(written.0));
      if written.1.None? then (kept, None) else (kept.(total := s.total + 1), Some(s.total))
    else
      match Relocated(s)
      case None => (s, None)
      case Some(moved) => AppendToDir(moved, block)
  }

  /** Reading may build the index of the file it reads. */
  function ReadStore(s: DirDir, index: nat): (DirDir, Option<Bytes>)
    requires StoreHeaded(s)
  {
    if s.root.Some? then
      if index >= s.root.value.total then (s, None)
      else
        var r := ReadBlock(s.root.value, index);
        (s.(root := Some(r.0)), r.1)
    else
      var (id, k) := Find(DirRanges(s.dirs), s.order, index);
      if id == 0 && k == 0 && index != 0 then (s, None)
      else if id !in s.dirs then (s, None)
      else
        var r := ReadBlock(s.dirs[id].store, k);
        (WithDir(s, id, r.0), r.1)
  }

  /** Later subdirectories are dropped, the target one is truncated, the total is counted again. */
  function RewindDirAt(s: DirDir, id: nat, k: nat): (DirDir, bool)
    requires StoreHeaded(s)
  {
    var kept := s.(dirs := Below(s.dirs, id), order := UpTo(s.order, id));
    if id > 0 && id in kept.dirs then
      var r := RewindDir(s.dirs[id].store, k);
      var cut := WithDir(kept, id, r.0);
      if r.1 then (cut.(total := Count(DirRanges(cut.dirs), cut.order)), true) else (cut, false)
    else (kept.(total := Count(DirRanges(kept.dirs), kept.order)), true)
  }

  function RewindStore(s: DirDir, index: nat): (DirDir, bool)
    requires StoreHeaded(s)
  {
    if index > s.total then (s, false)
    else if s.root.Some? then
      var r := RewindDir(s.root.value, index);
      if r.1 then (s.(root := Some(r.0), total := r.0.total), true) else (s.(root := Some(r.0)), false)
    else
      var (id, k) := Find(DirRanges(s.dirs), s.order, index);
      RewindDirAt(s, id, k)
  }

  /** What an orderly shutdown leaves on disk: the top index, and the index and files of each directory. */
  datatype DirDisk = DirDisk(index: DirIndex, files: map<nat, Bytes>)

  datatype StoreDisk = StoreDisk(
    maxDirCount: nat, maxFileCount: nat, maxFileSize: FileLimit, entries: seq<(nat, nat)>,
    root: Option<DirDisk>, subdirs: map<nat, DirDisk>)

  function SavedDir(d: FileDir): DirDisk {
    DirDisk(SavedIndex(d), DiskFiles(d))
  }

  function SavedStore(s: DirDir): (r: StoreDisk)
    ensures |r.entries| == |s.order|
  {
    StoreDisk(s.maxDirCount, s.maxFileCount, s.maxFileSize,
      seq(|s.order|, i requires 0 <= i < |s.order| =>
        (s.order[i], if s.order[i] in s.dirs then s.dirs[s.order[i]].start else 0)),
      if s.root.Some? then Some(SavedDir(s.root.value)) else None,
      map id | id in s.dirs :: SavedDir(s.dirs[id].store))
  }

  function MountDirs(disk: StoreDisk, n: nat): Option<map<nat, DirSlot>>
    requires n <= |disk.entries|
  {
    if n == 0 then Some(map[])
    else
      var (id, start) := disk.entries[n - 1];
      match MountDirs(disk, n - 1)
      case None => None
      case Some(dirs) =>
        if id !in disk.subdirs then None
        else
          match MountDir(disk.subdirs[id].index, disk.subdirs[id].files)
          case None => None
          case Some(store) => Some(dirs[id := DirSlot(store, start)])
  }

  /** An index without subdirectories means the root directory holds the files. */
  function MountStore(disk: StoreDisk): Option<DirDir> {
    if disk.maxFileSize < MIN_MAX_SIZE || disk.maxFileCount == 0 || disk.maxDirCount == 0 then None
    else if disk.entries == [] then
      if disk.root.None? then None
      else
        match MountDir(disk.root.value.index, disk.root.value.files)
        case None => None
        case Some(d) =>
          Some(DirDir(disk.maxDirCount, disk.maxFileCount, disk.maxFileSize, Some(d), map[], [], 0, d.total))
    else
      match MountDirs(disk, |disk.entries|)
      case None => None
      case Some(dirs) =>
        var order := Ids(disk.entries);
        Some(DirDir(disk.maxDirCount, disk.maxFileCount, disk.maxFileSize, None, dirs, order, MaxId(order),
                    Count(DirRanges(dirs), order)))
  }
}
