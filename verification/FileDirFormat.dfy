/** A directory of block files, each with the number of its first block: the operations of the directory store as
    functions of its fields. */
module FileDirFormat {
  import opened Numbers
  import opened Outcomes
  import opened FileFormat
  import opened FileLaws
  import opened Ranges

  /** An open block file and the block it starts at. */
  datatype FileSlot = FileSlot(store: FileState, start: nat)

  datatype FileDir = FileDir(
    maxFileCount: nat, maxFileSize: FileLimit, files: map<nat, FileSlot>, order: seq<nat>, currentId: nat, total: nat)

  function InitDir(maxFileCount: nat, maxFileSize: FileLimit): Option<FileDir> {
    if maxFileSize < MIN_MAX_SIZE || maxFileCount == 0 then None
    else Some(FileDir(maxFileCount, maxFileSize, map[], [], 0, 0))
  }

  predicate CurrentFits(d: FileDir, size: nat) {
    d.currentId in d.files && CanFit(d.files[d.currentId].store, size)
  }

  predicate DirCanFit(d: FileDir, size: nat) {
    size <= d.maxFileSize && |d.files| < d.maxFileCount
  }

  /** The file an append goes to: the current one if the block fits, a new one if there is room for another file. */
  function ActiveFile(d: FileDir, size: nat): (r: (FileDir, Option<nat>))
    ensures r.1.Some? ==> r.1.value in r.0.files && (r.1.value in d.files ==> r.0 == d || r.1.value == d.currentId + 1)
  {
    if CurrentFits(d, size) then (d, Some(d.currentId))
    else if |d.files| >= d.maxFileCount then (d, None)
    else
      var id := d.currentId + 1;
      match Init(d.maxFileSize)
      case None => (d.(currentId := id), None)
      case Some(file) =>
        (d.(currentId := id, files := d.files[id := FileSlot(file, d.total)], order := d.order + [id]), Some(id))
  }

  /** Every file holds at least its header. */
  predicate Headed(d: FileDir) {
    forall id | id in d.files :: HEADER_SIZE <= |d.files[id].store.file| && d.files[id].store.currentSize <= |d.files[id].store.file|
  }

  function WithStore(d: FileDir, id: nat, store: FileState): FileDir
    requires id in d.files
  {
    d.(files := d.files[id := d.files[id].(store := store)])
  }

  function AppendBlock(d: FileDir, block: Bytes): (FileDir, Option<nat>)
    requires Headed(d)
  {
    match ActiveFile(d, |block|)
    case (chosen, None) => (chosen, None)
    case (chosen, Some(id)) =>
      var written := Write(chosen.files[id].store, block);
      var kept := WithStore(chosen, id, written.0);
      if written.1.None? then (kept, None) else (kept.(total := d.total + 1), Some(d.total))
  }

  /** The blocks each file holds, by number. */
  function RangesOf(files: map<nat, FileSlot>): (t: Table)
    ensures t.Keys == files.Keys
  {
    map id | id in files :: Range(files[id].start, files[id].store.blockCount)
  }

  /** Reading may build the index of the file it reads. */
  function ReadBlock(d: FileDir, index: nat): (FileDir, Option<Bytes>)
    requires Headed(d)
  {
    var (id, k) := Find(RangesOf(d.files), d.order, index);
    if id == 0 && k == 0 && index != 0 then (d, None)
    else if id !in d.files then (d, None)
    else
      var r := Read(d.files[id].store, k);
      (WithStore(d, id, r.0), r.1)
  }

  /** Later files are dropped, the target file is truncated, the total is counted again. */
  function RewindAt(d: FileDir, id: nat, k: nat): (FileDir, bool)
    requires Headed(d)
  {
    var kept := d.(files := Below(d.files, id), order := UpTo(d.order, id));
    if id > 0 && id in kept.files then
      var r := RewindTo(d.files[id].store, k);
      var cut := WithStore(kept, id, r.0);
      if r.1 then (cut.(total := Count(RangesOf(cut.files), cut.order)), true) else (cut, false)
    else (kept.(total := Count(RangesOf(kept.files), kept.order)), true)
  }

  function RewindDir(d: FileDir, index: nat): (FileDir, bool)
    requires Headed(d)
  {
    if index > d.total then (d, false)
    else
      var (id, k) := Find(RangesOf(d.files), d.order, index);
      RewindAt(d, id, k)
  }

  /** What the index file of the directory lists: the files in order, with their first blocks. */
  datatype DirIndex = DirIndex(maxFileCount: nat, maxFileSize: FileLimit, entries: seq<(nat, nat)>)

  function SavedIndex(d: FileDir): (r: DirIndex)
    ensures |r.entries| == |d.order| && r.maxFileSize == d.maxFileSize && r.maxFileCount == d.maxFileCount
  {
    DirIndex(d.maxFileCount, d.maxFileSize, seq(|d.order|, i requires 0 <= i < |d.order| =>
      (d.order[i], if d.order[i] in d.files then d.files[d.order[i]].start else 0)))
  }

  /** The files on disk, by number. */
  function DiskFiles(d: FileDir): map<nat, Bytes> {
    map id | id in d.files :: d.files[id].store.file
  }

  /** Mounting the listed files one after another; `None` when one is missing or not a block file. */
  function MountFiles(index: DirIndex, disk: map<nat, Bytes>, n: nat): (r: Option<map<nat, FileSlot>>)
    requires n <= |index.entries|
    ensures r.Some? ==> forall id | id in r.value ::
      HEADER_SIZE <= |r.value[id].store.file| && r.value[id].store.currentSize <= |r.value[id].store.file|
  {
    if n == 0 then Some(map[])
    else
      var (id, start) := index.entries[n - 1];
      match MountFiles(index, disk, n - 1)
      case None => None
      case Some(files) =>
        if id !in disk then None
        else
          match Mount(disk[id], index.maxFileSize)
          case None => None
          case Some(store) => Some(files[id := FileSlot(store, start)])
  }

  function MountDir(index: DirIndex, disk: map<nat, Bytes>): Option<FileDir> {
    if index.maxFileSize < MIN_MAX_SIZE || index.maxFileCount == 0 then None
    else
      match MountFiles(index, disk, |index.entries|)
      case None => None
      case Some(files) =>
        var order := Ids(index.entries);
        Some(FileDir(index.maxFileCount, index.maxFileSize, files, order, MaxId(order), Count(RangesOf(files), order)))
  }
}
