/** Whole runs of the top store: appends, reads, truncations and remounts against one plain list. */
module StoreRuns {
  import opened Numbers
  import opened Outcomes
  import opened Ranges
  import opened FileDirFormat
  import FileDirLaws
  import opened DirDirFormat
  import opened DirDirLaws

  datatype StoreOp = AppendOp(block: Bytes) | ReadOp(index: nat) | TruncateOp(index: nat) | RemountOp

  /** Shutting down, mounting again and reading the last block. */
  function Remounted(s: DirDir): Option<DirDir> {
    match MountStore(SavedStore(s))
    case None => None
    case Some(m) => if m.total > 0 && StoreHeaded(m) then Some(ReadStore(m, m.total - 1).0) else Some(m)
  }

  function StoreStep(s: DirDir, op: StoreOp): Option<DirDir>
    requires StoreHeaded(s)
  {
    match op
    case AppendOp(block) => Some(AppendStore(s, block).0)
    case ReadOp(index) => Some(ReadStore(s, index).0)
    case TruncateOp(index) => Some(RewindStore(s, index).0)
    case RemountOp => Remounted(s)
  }

  /** What the operation means for the plain list; `accepted` says whether an append was. */
  function ListStep(blocks: Blocks, op: StoreOp, accepted: bool): Blocks {
    match op
    case AppendOp(block) => if accepted then blocks + [block] else blocks
    case TruncateOp(index) =>
      if index < |blocks| then blocks[..index] else if index == |blocks| then [] else blocks
    case _ => blocks
  }

  predicate Accepted(s: DirDir, op: StoreOp) {
    op.AppendOp? && StoreAccepts(s, |op.block|)
  }

  /** A store in use: it stands for the list and its next append is safe. */
  ghost predicate InUse(s: DirDir, blocks: Blocks) {
    Keeps(s, blocks) && StoreReady(s) && s.maxDirCount > 1
  }

  lemma LimitsKept(s: DirDir, op: StoreOp)
    requires StoreHeaded(s) && !op.RemountOp?
    ensures StoreStep(s, op).value.maxDirCount == s.maxDirCount && StoreStep(s, op).value.maxFileSize == s.maxFileSize
  {
    hide AppendBlock, ReadBlock, RewindDir, Reopened, Headed, DirRanges, Find, UpTo, Below, Count, DirCanFit;
  }

  lemma RemountedKeeps(s: DirDir, blocks: Blocks)
    requires InUse(s, blocks)
    ensures Remounted(s).Some? <==> s.root.Some? || s.dirs != map[]
    ensures Remounted(s).Some? ==> InUse(Remounted(s).value, blocks) && Remounted(s).value.maxFileSize == s.maxFileSize
  {
    hide Keeps, MountStore, SavedStore, ReadStore, StoreReady, StoreHeaded;
    MountStoreIff(s, blocks);
    if Remounted(s).Some? {
      var m := MountStore(SavedStore(s)).value;
      KeepsHeaded(m, blocks);
      ReadLastMakesStoreReady(m, blocks);
      if blocks != [] {
        ReadStoreMeaning(m, blocks, |blocks| - 1);
        LimitsKept(m, ReadOp(|blocks| - 1));
      }
    }
  }

  lemma StepRefines(s: DirDir, blocks: Blocks, op: StoreOp)
    requires InUse(s, blocks) && StoreHeaded(s)
    ensures StoreStep(s, op).Some? ==> InUse(StoreStep(s, op).value, ListStep(blocks, op, Accepted(s, op)))
    ensures StoreStep(s, op).None? <==> op.RemountOp? && s.root.None? && s.dirs == map[]
  {
    hide Keeps, AppendStore, ReadStore, RewindStore, Remounted, StoreReady, StoreHeaded, StoreAccepts;
    if !op.RemountOp? {
      LimitsKept(s, op);
    }
    match op {
      case AppendOp(block) => AppendStoreMeaning(s, blocks, block);
      case ReadOp(index) => ReadStoreMeaning(s, blocks, index);
      case TruncateOp(index) => RewindStoreMeaning(s, blocks, index);
      case RemountOp => RemountedKeeps(s, blocks);
    }
  }

  /** The store and the list after the operations; the run stops at a remount that fails. */
  ghost function StoreRun(s: DirDir, blocks: Blocks, ops: seq<StoreOp>): (Option<DirDir>, Blocks)
    requires InUse(s, blocks)
    decreases |ops|
  {
    if ops == [] then (Some(s), blocks)
    else
      KeepsHeaded(s, blocks);
      StepRefines(s, blocks, ops[0]);
      var next := ListStep(blocks, ops[0], Accepted(s, ops[0]));
      if StoreStep(s, ops[0]).None? then (None, next) else StoreRun(StoreStep(s, ops[0]).value, next, ops[1..])
  }

  /** For every run, the store reads exactly like the list: block `i` is the `i`-th, there is nothing beyond, and the
      next append, if accepted, is numbered by the length of the list. */
  lemma {:induction false} StoreRefinesList(s: DirDir, blocks: Blocks, ops: seq<StoreOp>, i: nat, block: Bytes)
    requires InUse(s, blocks)
    ensures var (end, list) := StoreRun(s, blocks, ops);
      end.Some? ==>
        && InUse(end.value, list) && StoreHeaded(end.value)
        && ReadStore(end.value, i).1 == (if i < |list| then Some(list[i]) else None)
        && AppendStore(end.value, block).1 == (if StoreAccepts(end.value, |block|) then Some(|list|) else None)
    decreases |ops|
  {
    hide Keeps, AppendStore, ReadStore, StoreStep, StoreReady, StoreHeaded, StoreAccepts, ListStep;
    KeepsHeaded(s, blocks);
    if ops == [] {
      ReadStoreMeaning(s, blocks, i);
      AppendStoreMeaning(s, blocks, block);
    } else {
      StepRefines(s, blocks, ops[0]);
      if StoreStep(s, ops[0]).Some? {
        StoreRefinesList(StoreStep(s, ops[0]).value, ListStep(blocks, ops[0], Accepted(s, ops[0])), ops[1..], i, block);
      }
    }
  }

  /** While no truncation drops everything, a store in use never fails to mount: its subdirectories are empty only when
      the list is. */
  lemma NonEmptyMounts(s: DirDir, blocks: Blocks)
    requires InUse(s, blocks) && blocks != []
    ensures Remounted(s).Some?
  {
    hide MountStore, SavedStore, FileDirLaws.Stores, Headed, StoreReady;
    RemountedKeeps(s, blocks);
    if s.root.None? {
      var parts :| DirsHold(s, parts) && Flat(parts) == blocks;
      DirsShape(s, parts);
      assert parts != [];
    }
  }
}
