/** A block file behaves as the list of its blocks: what appending, reading, truncating and remounting do to that list,
    and that the bytes alone determine the index. */
module FileLaws {
  import opened Numbers
  import opened Outcomes
  import opened Sequences
  import opened Words
  import opened FileFormat

  lemma {:induction false} FramesLength(blocks: seq<Bytes>)
    ensures |Frames(blocks)| >= SIZE_PREFIX_BYTES * |blocks|
  {
    if blocks != [] {
      FramesLength(blocks[1..]);
    }
  }

  lemma HeaderReadsBack(count: nat, rest: Bytes)
    requires count < TWO_64
    ensures HeaderAccepted(Header(count) + rest) && HeaderCount(Header(count) + rest) == count
  {
    hide LittleEndian, FromLittleEndian, Pow256, HeaderLead;
    Widths();
    LittleEndianRoundTrip(count, 8);
    HeaderFields(count, rest);
    var file := Header(count) + rest;
    assert file[..COUNT_OFFSET][0..4] == file[0..4] && file[..COUNT_OFFSET][4..6] == file[4..6];
  }

  lemma HeaderFields(count: nat, rest: Bytes)
    ensures var file := Header(count) + rest;
      && file[..COUNT_OFFSET] == HeaderLead()
      && file[COUNT_OFFSET..COUNT_OFFSET + 8] == LittleEndian(count, 8)
      && file[COUNT_OFFSET + 8..] == LittleEndian(HEADER_SIZE, 8) + rest
  {
    hide LittleEndian, HeaderLead;
    Regroup(HeaderLead() + LittleEndian(count, 8), LittleEndian(HEADER_SIZE, 8), rest, []);
    Middle(HeaderLead(), LittleEndian(count, 8), LittleEndian(HEADER_SIZE, 8) + rest);
  }

  lemma RecountHeader(was: nat, count: nat, rest: Bytes)
    ensures WithCount(Header(was) + rest, count) == Header(count) + rest
  {
    hide LittleEndian, HeaderLead;
    HeaderFields(was, rest);
    Regroup(HeaderLead() + LittleEndian(count, 8), LittleEndian(HEADER_SIZE, 8), rest, []);
  }

  lemma InitRepresents(maxSize: FileLimit)
    requires maxSize >= MIN_MAX_SIZE
    ensures Init(maxSize).Some? && Represents(Init(maxSize).value, [])
  {
    hide LittleEndian;
    assert Header(0) + [] == Header(0);
  }

  /** Scanning the bytes of a file gives the index its operations kept, and the true block count. */
  lemma ScanOfFile(s: FileState, blocks: seq<Bytes>)
    requires Represents(s, blocks)
    ensures ScanFile(s) == Some(IndexFrom(blocks, HEADER_SIZE))
  {
    hide Header, Frames, Scan, IndexFrom, Incomplete;
    assert Header(|blocks|) + Frames(blocks) + [] == s.file;
    NothingIncomplete(HEADER_SIZE + |Frames(blocks)|);
    ScanRebuildsIff(Header(|blocks|), blocks, []);
  }

  lemma NothingIncomplete(at: nat)
    ensures Incomplete([]) && EndsRepresentably([], at)
  {
  }

  lemma EnsureIndexBuilds(s: FileState, blocks: seq<Bytes>)
    requires Represents(s, blocks)
    ensures Represents(EnsureIndex(s), blocks) && EnsureIndex(s).indexBuilt && IndexAvailable(s)
    ensures EnsureIndex(s).maxSize == s.maxSize && EnsureIndex(s).file == s.file
  {
    hide ScanFile, IndexFrom, Frames, Header;
    ScanOfFile(s, blocks);
  }

  lemma WrittenFile(s: FileState, blocks: seq<Bytes>, block: Bytes)
    requires Represents(s, blocks) && CanFit(s, |block|)
    ensures Write(s, block).0.file == Header(|blocks| + 1) + Frames(blocks + [block])
    ensures Write(s, block).0.currentSize == |Write(s, block).0.file| && |blocks| + 1 < TWO_64
  {
    hide Header, Frames, IndexFrom, Frame, WithCount;
    FramesLength(blocks);
    FramesAppend(blocks, block);
    RecountHeader(|blocks|, |blocks| + 1, Frames(blocks) + Frame(block));
    Assoc(Header(|blocks|), Frames(blocks), Frame(block));
  }

  /** A fitting append adds the block, and keeps the bookkeeping right exactly when the index was built or the file empty:
      appending to a mounted file whose index was never read leaves an index of one entry. */
  lemma WriteRepresentsIff(s: FileState, blocks: seq<Bytes>, block: Bytes)
    requires Represents(s, blocks) && CanFit(s, |block|)
    ensures Write(s, block).1 == Some(|blocks|)
    ensures Write(s, block).0.file == Header(|blocks| + 1) + Frames(blocks + [block])
    ensures Represents(Write(s, block).0, blocks + [block]) <==> s.indexBuilt || blocks == []
  {
    hide Header, Frames, IndexFrom, Frame, WithCount;
    WrittenFile(s, blocks, block);
    IndexAppend(blocks, block, HEADER_SIZE);
    if blocks == [] {
      NothingIndexed(HEADER_SIZE);
    }
  }

  lemma WriteRefused(s: FileState, blocks: seq<Bytes>, block: Bytes)
    requires Represents(s, blocks) && !CanFit(s, |block|)
    ensures Write(s, block) == (s, None)
  {
  }

  lemma ReadAtReturns(s: FileState, blocks: seq<Bytes>, i: nat)
    requires Represents(s, blocks) && s.indexBuilt
    ensures ReadAt(s, i) == if i < |blocks| then Some(blocks[i]) else None
  {
    hide Header, Frames, IndexFrom;
    if i < |blocks| {
      EntryAt(blocks, HEADER_SIZE, i);
      assert s.file == Header(|blocks|) + Frames(blocks) + [];
      BlockAt(s.file, Header(|blocks|), blocks, [], i);
    }
  }

  /** Reading returns exactly the block appended at that place, and nothing beyond the last. */
  lemma ReadReturns(s: FileState, blocks: seq<Bytes>, i: nat)
    requires Represents(s, blocks)
    ensures Represents(Read(s, i).0, blocks)
    ensures Read(s, i).1 == if i < |blocks| then Some(blocks[i]) else None
  {
    hide Represents, EnsureIndex, ReadAt;
    assert s.currentSize <= |s.file| by { Sized(s, blocks); }
    EnsureIndexBuilds(s, blocks);
    ReadAtReturns(EnsureIndex(s), blocks, i);
  }

  lemma Sized(s: FileState, blocks: seq<Bytes>)
    requires Represents(s, blocks)
    ensures HEADER_SIZE <= s.currentSize == |s.file| && s.blockCount == |blocks|
  {
    hide Frames, Header;
  }

  lemma CutAt(blocks: seq<Bytes>, index: nat)
    requires SizesFit(blocks) && 0 < index < |blocks| < TWO_64
    ensures var file := Header(|blocks|) + Frames(blocks); var offset := HEADER_SIZE + |Frames(blocks[..index])|;
      && offset <= |file|
      && WithCount(file[..offset], index) == Header(index) + Frames(blocks[..index])
      && IndexFrom(blocks, HEADER_SIZE)[index].offset == offset
      && IndexFrom(blocks, HEADER_SIZE)[..index] == IndexFrom(blocks[..index], HEADER_SIZE)
  {
    hide Header, Frames, IndexFrom, Frame, WithCount;
    EntryAt(blocks, HEADER_SIZE, index);
    FramesSplit(blocks, index);
    var head, rest := Frames(blocks[..index]), Frame(blocks[index]) + Frames(blocks[index + 1..]);
    Regroup(Header(|blocks|), head, rest, []);
    Front(Header(|blocks|) + head, rest);
    RecountHeader(|blocks|, index, head);
  }

  /** Truncating leaves exactly the blocks before the index; an index beyond the count is refused. */
  lemma RewindRepresents(s: FileState, blocks: seq<Bytes>, index: nat)
    requires Represents(s, blocks)
    requires HEADER_SIZE <= |s.file| && s.currentSize <= |s.file|
    ensures RewindTo(s, index).1 <==> index <= |blocks|
    ensures RewindTo(s, index).0.maxSize == s.maxSize && RewindTo(s, index).0.indexBuilt
    ensures Represents(RewindTo(s, index).0, if index <= |blocks| then blocks[..index] else blocks)
  {
    hide EnsureIndex, Frames, IndexFrom, Header, WithCount;
    EnsureIndexBuilds(s, blocks);
    if index == |blocks| {
      assert blocks[..index] == blocks;
    } else if index == 0 {
      EmptyFile(blocks);
    } else if index < |blocks| {
      CutAt(blocks, index);
    }
  }

  lemma EmptyFile(blocks: seq<Bytes>)
    ensures blocks[..0] == [] && Header(0) + Frames(blocks[..0]) == Header(0) && IndexFrom(blocks[..0], HEADER_SIZE) == []
  {
    hide Header;
  }

  /** A mounted file stands for the same blocks, whatever its index was before. */
  lemma MountRepresents(s: FileState, blocks: seq<Bytes>, maxSize: FileLimit)
    requires Represents(s, blocks) && maxSize >= MIN_MAX_SIZE
    ensures Mount(s.file, maxSize).Some? && Represents(Mount(s.file, maxSize).value, blocks)
    ensures !Mount(s.file, maxSize).value.indexBuilt && Mount(s.file, maxSize).value.maxSize == maxSize
  {
    hide Header, Frames, IndexFrom;
    HeaderReadsBack(|blocks|, Frames(blocks));
  }

  lemma TornIndex(s: FileState, count: nat, blocks: seq<Bytes>, tail: Bytes)
    requires Incomplete(tail)
    requires s.file == Header(count) + Frames(blocks) + tail && s.currentSize == |s.file| <= INT64_MAX
    ensures ScanFile(s) == Some(IndexFrom(blocks, HEADER_SIZE)) <==> EndsRepresentably(tail, HEADER_SIZE + |Frames(blocks)|)
    ensures ScanFile(s).None? || |ScanFile(s).value| >= |blocks|
    ensures ScanFile(s).Some? ==> ScanFile(s).value[..|blocks|] == IndexFrom(blocks, HEADER_SIZE)
  {
    hide Header, Frames, IndexFrom, Scan, Incomplete, EndsRepresentably, Starts;
    ScanRebuildsIff(Header(count), blocks, tail);
    ScanPasses(Header(count), blocks, tail, {});
  }

  lemma TornRead(s: FileState, count: nat, blocks: seq<Bytes>, tail: Bytes, i: nat)
    requires |s.file| <= INT64_MAX && |blocks| <= |s.blockIndex| && s.blockIndex[..|blocks|] == IndexFrom(blocks, HEADER_SIZE)
    requires s.file == Header(count) + Frames(blocks) + tail
    ensures i < |blocks| ==> ReadAt(s, i) == Some(blocks[i])
    ensures i >= |s.blockIndex| ==> ReadAt(s, i) == None
  {
    hide Header, Frames, IndexFrom;
    if i < |blocks| {
      PrefixAt(s.blockIndex, IndexFrom(blocks, HEADER_SIZE), i);
      EntryRead(s, Header(count), blocks, tail, i);
    }
  }

  lemma EntryRead(s: FileState, before: Bytes, blocks: seq<Bytes>, tail: Bytes, i: nat)
    requires |s.file| <= INT64_MAX && i < |blocks| && i < |s.blockIndex|
    requires |before| == HEADER_SIZE && s.blockIndex[i] == IndexFrom(blocks, HEADER_SIZE)[i]
    requires s.file == before + Frames(blocks) + tail
    ensures ReadAt(s, i) == Some(blocks[i])
  {
    hide Frames, IndexFrom;
    EntryAt(blocks, HEADER_SIZE, i);
    BlockAt(s.file, before, blocks, tail, i);
  }

  /** A file that ends in an incomplete block, whatever count its header holds, yields exactly the complete blocks if and
      only if that block's claimed end is a representable offset. If not, the mounted store counts blocks that are not
      there, or never finishes the scan. */
  lemma MountAfterTornWriteIff(file: Bytes, count: nat, blocks: seq<Bytes>, tail: Bytes, maxSize: FileLimit, i: nat)
    requires count < TWO_64 && Incomplete(tail) && maxSize >= MIN_MAX_SIZE
    requires file == Header(count) + Frames(blocks) + tail && |file| <= INT64_MAX
    ensures var m := Mount(file, maxSize);
      && m.Some?
      && ((IndexAvailable(m.value) && EnsureIndex(m.value).blockCount == |blocks|) <==>
          EndsRepresentably(tail, HEADER_SIZE + |Frames(blocks)|))
      && (IndexAvailable(m.value) ==> EnsureIndex(m.value).blockCount >= |blocks|)
      && (IndexAvailable(m.value) && i < |blocks| ==> Read(m.value, i).1 == Some(blocks[i]))
      && (EndsRepresentably(tail, HEADER_SIZE + |Frames(blocks)|) && i >= |blocks| ==> Read(m.value, i).1 == None)
  {
    hide Header, Frames, IndexFrom, ScanFile, Incomplete, HeaderAccepted, HeaderCount, ReadAt, EndsRepresentably;
    assert HeaderAccepted(file) && HeaderCount(file) == count by {
      HeaderReadsBack(count, Frames(blocks) + tail);
      Regroup(Header(count), Frames(blocks), tail, []);
    }
    var m := Mount(file, maxSize).value;
    TornIndex(m, count, blocks, tail);
    if IndexAvailable(m) {
      assert ScanFile(m).value[..|ScanFile(m).value|] == ScanFile(m).value;
      TornRead(EnsureIndex(m), count, blocks, tail, i);
    }
  }

  /** Eight bytes of ones, as a full disk or a dropped write may leave them, are taken for a block: its claimed end wraps to
      seven bytes behind its start. */
  lemma OnesAreCounted(count: nat, blocks: seq<Bytes>, s: FileState)
    requires !s.indexBuilt && s.currentSize == |s.file| <= INT64_MAX
    requires s.file == Header(count) + Frames(blocks) + LittleEndian(TWO_64 - 1, SIZE_PREFIX_BYTES)
    ensures Incomplete(LittleEndian(TWO_64 - 1, SIZE_PREFIX_BYTES))
    ensures EnsureIndex(s).indexBuilt && EnsureIndex(s).blockCount == |blocks| + 1
  {
    hide Header, Frames, IndexFrom, LittleEndian, FromLittleEndian, Pow256, Starts, Scan;
    var tail := LittleEndian(TWO_64 - 1, SIZE_PREFIX_BYTES);
    OnesIncomplete();
    ScanPasses(Header(count), blocks, tail, {});
    OnesScanned(Header(count) + Frames(blocks), Starts(blocks, HEADER_SIZE));
    assert {} + Starts(blocks, HEADER_SIZE) == Starts(blocks, HEADER_SIZE);
  }

  lemma OnesIncomplete()
    ensures Incomplete(LittleEndian(TWO_64 - 1, SIZE_PREFIX_BYTES))
  {
    hide LittleEndian, FromLittleEndian, Pow256;
    var tail := LittleEndian(TWO_64 - 1, SIZE_PREFIX_BYTES);
    Widths();
    LittleEndianRoundTrip(TWO_64 - 1, SIZE_PREFIX_BYTES);
    assert tail[..SIZE_PREFIX_BYTES] == tail;
  }

  lemma OnesScanned(before: Bytes, visited: set<int>)
    requires var file := before + LittleEndian(TWO_64 - 1, SIZE_PREFIX_BYTES); |file| <= INT64_MAX && AllBelow(visited, |before|)
    ensures var file := before + LittleEndian(TWO_64 - 1, SIZE_PREFIX_BYTES);
      Scan(file, |file|, |before|, visited) == Some([BlockEntry(|before|, TWO_64 - 1)])
  {
    hide LittleEndian, FromLittleEndian, Pow256;
    Widths();
    LittleEndianRoundTrip(TWO_64 - 1, SIZE_PREFIX_BYTES);
    var file := before + LittleEndian(TWO_64 - 1, SIZE_PREFIX_BYTES);
    assert file[|before|..|before| + SIZE_PREFIX_BYTES] == LittleEndian(TWO_64 - 1, SIZE_PREFIX_BYTES);
    assert Advance(|before|, TWO_64 - 1) == |before| + 7;
    var at: int := |before|;
    assert at !in visited && Scan(file, |file|, at + 7, visited + {at}) == Some([]);
    assert [BlockEntry(at, TWO_64 - 1)] + [] == [BlockEntry(at, TWO_64 - 1)];
  }

  /** A size eight below the top moves the scan by nothing: it never ends. */
  lemma ScanMayNotEnd(before: Bytes, visited: set<int>)
    requires |before| + SIZE_PREFIX_BYTES <= INT64_MAX
    ensures var file := before + LittleEndian(TWO_64 - 8, SIZE_PREFIX_BYTES);
      Incomplete(file[|before|..]) && Scan(file, |file|, |before|, visited) == None
  {
    hide LittleEndian, FromLittleEndian, Pow256;
    Widths();
    LittleEndianRoundTrip(TWO_64 - 8, SIZE_PREFIX_BYTES);
    var file := before + LittleEndian(TWO_64 - 8, SIZE_PREFIX_BYTES);
    assert file[|before|..] == LittleEndian(TWO_64 - 8, SIZE_PREFIX_BYTES) == file[|before|..][..SIZE_PREFIX_BYTES];
    assert file[|before|..|before| + SIZE_PREFIX_BYTES] == LittleEndian(TWO_64 - 8, SIZE_PREFIX_BYTES);
    assert Advance(|before|, TWO_64 - 8) == |before|;
  }

  // ----- appending behind a torn block -----

  /** The store mounted on a torn file and read, and then appended to: the new frame stands behind the torn bytes. */
  lemma AppendedBehind(file: Bytes, count: nat, blocks: seq<Bytes>, tail: Bytes, maxSize: FileLimit, block: Bytes)
    requires count < TWO_64 && Incomplete(tail) && maxSize >= MIN_MAX_SIZE && EndsRepresentably(tail, HEADER_SIZE + |Frames(blocks)|)
    requires file == Header(count) + Frames(blocks) + tail && |file| <= INT64_MAX
    requires Mount(file, maxSize).Some?
    ensures var s := EnsureIndex(Mount(file, maxSize).value);
      && s.file == file && s.currentSize == |file| && s.indexBuilt && s.blockCount == |blocks|
      && s.blockIndex == IndexFrom(blocks, HEADER_SIZE)
      && (CanFit(s, |block|) ==> Write(s, block).0.file == Header(|blocks| + 1) + Frames(blocks) + (tail + Frame(block)))
  {
    hide Header, Frames, IndexFrom, ScanFile, Incomplete, EndsRepresentably, WithCount, Frame;
    TornIndex(Mount(file, maxSize).value, count, blocks, tail);
    Regroup(Header(count), Frames(blocks), tail, Frame(block));
    Regroup(Header(|blocks| + 1), Frames(blocks), tail, Frame(block));
    Assoc(Header(count), Frames(blocks), tail + Frame(block));
    Assoc(Header(|blocks| + 1), Frames(blocks), tail + Frame(block));
    RecountHeader(count, |blocks| + 1, Frames(blocks) + (tail + Frame(block)));
  }

  /** What a scan makes of the bytes behind the complete blocks: nothing, or first of all an entry at the torn bytes. */
  lemma ScanOfTorn(before: Bytes, behind: Bytes, visited: set<int>)
    requires |before + behind| <= INT64_MAX && AllBelow(visited, |before|)
    ensures var r := Scan(before + behind, |before + behind|, |before|, visited);
      r.Some? && r.value != [] ==>
        |behind| >= SIZE_PREFIX_BYTES && r.value[0] == BlockEntry(|before|, FromLittleEndian(behind[..SIZE_PREFIX_BYTES]))
  {
    hide FromLittleEndian, Advance;
    if |behind| >= SIZE_PREFIX_BYTES {
      assert (before + behind)[|before|..|before| + SIZE_PREFIX_BYTES] == behind[..SIZE_PREFIX_BYTES];
    }
  }

  /** A block appended behind torn bytes reads back while the object lives. A later mount finds it where it was written if and
      only if nothing was torn: otherwise the scan looks for a frame at the torn bytes, and finds none or one that swallows
      the new frame's beginning. */
  lemma AppendSurvivesIff(file: Bytes, count: nat, blocks: seq<Bytes>, tail: Bytes, maxSize: FileLimit, block: Bytes)
    requires count < TWO_64 && Incomplete(tail) && maxSize >= MIN_MAX_SIZE && EndsRepresentably(tail, HEADER_SIZE + |Frames(blocks)|)
    requires file == Header(count) + Frames(blocks) + tail && |file| <= INT64_MAX && SizesFit(blocks)
    requires Mount(file, maxSize).Some? && CanFit(EnsureIndex(Mount(file, maxSize).value), |block|)
    ensures var s := Write(EnsureIndex(Mount(file, maxSize).value), block).0;
      && s.currentSize == |s.file| <= INT64_MAX && ReadAt(s, |blocks|) == Some(block)
      && Mount(s.file, maxSize).Some?
      && (ScanFile(Mount(s.file, maxSize).value) == Some(s.blockIndex) <==> tail == [])
  {
    hide Header, Frames, IndexFrom, ScanFile, Incomplete, EndsRepresentably, Scan, WithCount, Starts, HeaderAccepted, HeaderCount;
    AppendedBehind(file, count, blocks, tail, maxSize, block);
    var built := EnsureIndex(Mount(file, maxSize).value);
    var s := Write(built, block).0;
    var before, behind := Header(|blocks| + 1) + Frames(blocks), tail + Frame(block);
    assert |s.file| == |file| + SIZE_PREFIX_BYTES + |block|;
    FramesLength(blocks);
    AppendMounts(s, |blocks| + 1, Frames(blocks) + behind, maxSize) by {
      Assoc(Header(|blocks| + 1), Frames(blocks), behind);
    }
    var m := Mount(s.file, maxSize).value;
    ScanPasses(Header(|blocks| + 1), blocks, behind, {});
    assert {} + Starts(blocks, HEADER_SIZE) == Starts(blocks, HEADER_SIZE);
    ScanOfTorn(before, behind, Starts(blocks, HEADER_SIZE));
    AppendReads(s, block, file) by {
      Assoc(Header(|blocks| + 1) + Frames(blocks), tail, Frame(block));
    }
    var scanned := Scan(s.file, |s.file|, |before|, Starts(blocks, HEADER_SIZE));
    FileScanned(m);
    EntriesBehind(IndexFrom(blocks, HEADER_SIZE), scanned, BlockEntry(|file|, |block|));
    if tail == [] {
      assert tail + Frame(block) == Frame(block);
      WholeFrameScanned(before, block, Starts(blocks, HEADER_SIZE));
    }
  }

  lemma FileScanned(m: FileState)
    requires m.currentSize == |m.file| <= INT64_MAX
    ensures ScanFile(m) == Scan(m.file, |m.file|, HEADER_SIZE, {})
  {
    hide Scan;
  }

  lemma EntriesBehind(es: seq<BlockEntry>, r: Option<seq<BlockEntry>>, e: BlockEntry)
    ensures Behind(es, r) == Some(es + [e]) <==> r == Some([e])
  {
    if r.Some? && es + r.value == es + [e] {
      assert (es + r.value)[|es|..] == r.value && (es + [e])[|es|..] == [e];
    }
  }

  lemma AppendMounts(s: FileState, count: nat, rest: Bytes, maxSize: FileLimit)
    requires s.file == Header(count) + rest && count < TWO_64 && maxSize >= MIN_MAX_SIZE
    ensures Mount(s.file, maxSize).Some? && Mount(s.file, maxSize).value.file == s.file
    ensures Mount(s.file, maxSize).value.currentSize == |s.file|
  {
    hide Header, HeaderAccepted, HeaderCount;
    HeaderReadsBack(count, rest);
  }

  lemma AppendReads(s: FileState, block: Bytes, torn: Bytes)
    requires s.blockIndex != [] && s.blockIndex[|s.blockIndex| - 1] == BlockEntry(|torn|, |block|)
    requires |s.file| == |torn| + SIZE_PREFIX_BYTES + |block| && s.file[|torn|..] == Frame(block)
    ensures ReadAt(s, |s.blockIndex| - 1) == Some(block)
  {
    hide LittleEndian;
    var start := |torn| + SIZE_PREFIX_BYTES;
    assert s.file[start..start + |block|] == s.file[|torn|..][SIZE_PREFIX_BYTES..] == block;
  }

  lemma WholeFrameScanned(before: Bytes, block: Bytes, visited: set<int>)
    requires |before + Frame(block)| <= INT64_MAX && AllBelow(visited, |before|)
    ensures Scan(before + Frame(block), |before + Frame(block)|, |before|, visited) == Some([BlockEntry(|before|, |block|)])
  {
    hide Scan, Frame, FromLittleEndian;
    var file := before + Frame(block);
    assert before + Frame(block) + [] == file;
    FrameSizeReadsBack(file, before, block, []);
    ScanStep(file, |file|, |before|, |block|, visited);
    ScanAtEnd(file, visited + {|before|});
    assert [BlockEntry(|before|, |block|)] + [] == [BlockEntry(|before|, |block|)];
  }

  lemma ScanAtEnd(file: Bytes, visited: set<int>)
    ensures Scan(file, |file|, |file|, visited) == Some([])
  {
  }

  // ----- whole runs of one file -----

  datatype FileOp = WriteBlock(block: Bytes) | Truncate(index: nat) | ReadBack(index: nat)

  function FileStep(s: FileState, op: FileOp): FileState
    requires HEADER_SIZE <= s.currentSize <= |s.file|
  {
    match op
    case WriteBlock(block) => Write(s, block).0
    case Truncate(index) => RewindTo(s, index).0
    case ReadBack(index) => Read(s, index).0
  }

  /** What the operation means for the plain list of blocks. */
  function ListStep(blocks: seq<Bytes>, op: FileOp, fits: bool): seq<Bytes> {
    match op
    case WriteBlock(block) => if fits then blocks + [block] else blocks
    case Truncate(index) => if index <= |blocks| then blocks[..index] else blocks
    case ReadBack(_) => blocks
  }

  predicate Fits(s: FileState, op: FileOp) {
    op.WriteBlock? && CanFit(s, |op.block|)
  }

  predicate AppendReady(s: FileState) {
    s.indexBuilt || s.blockCount == 0
  }

  lemma StepRepresents(s: FileState, blocks: seq<Bytes>, op: FileOp)
    requires Represents(s, blocks) && AppendReady(s)
    requires HEADER_SIZE <= s.currentSize <= |s.file|
    ensures Represents(FileStep(s, op), ListStep(blocks, op, Fits(s, op))) && AppendReady(FileStep(s, op))
  {
    hide Represents, Write, RewindTo, Read, CanFit;
    Sized(s, blocks);
    match op {
      case WriteBlock(block) =>
        if CanFit(s, |block|) {
          WriteRepresentsIff(s, blocks, block);
          WriteBuilds(s, block);
        } else {
          WriteRefused(s, blocks, block);
        }
      case Truncate(index) => RewindRepresents(s, blocks, index);
      case ReadBack(index) =>
        ReadReturns(s, blocks, index);
        EnsureIndexBuilds(s, blocks);
        ReadBuilds(s, index);
    }
  }

  lemma WriteBuilds(s: FileState, block: Bytes)
    requires |s.file| >= HEADER_SIZE && CanFit(s, |block|)
    ensures Write(s, block).0.indexBuilt && Write(s, block).0.maxSize == s.maxSize
  {
  }

  lemma ReadBuilds(s: FileState, index: nat)
    requires s.currentSize <= |s.file| && IndexAvailable(s)
    ensures Read(s, index).0.indexBuilt
  {
  }

  function FileRun(s: FileState, blocks: seq<Bytes>, ops: seq<FileOp>): (FileState, seq<Bytes>)
    requires Represents(s, blocks) && AppendReady(s)
    decreases |ops|
  {
    if ops == [] then (s, blocks)
    else
      Sized(s, blocks);
      StepRepresents(s, blocks, ops[0]);
      FileRun(FileStep(s, ops[0]), ListStep(blocks, ops[0], Fits(s, ops[0])), ops[1..])
  }

  /** For every run of appends, truncations and reads, scanning the bytes rebuilds exactly the index and the count held
      in memory, and a fresh mount of the bytes reads every block of the list. */
  lemma {:induction false} RunsRebuild(s: FileState, blocks: seq<Bytes>, ops: seq<FileOp>, i: nat)
    requires Represents(s, blocks) && AppendReady(s) && s.maxSize >= MIN_MAX_SIZE
    ensures var (end, list) := FileRun(s, blocks, ops);
      && Represents(end, list)
      && (end.indexBuilt ==> EnsureIndex(end.(indexBuilt := false)) == end)
      && Mount(end.file, s.maxSize).Some?
      && Read(Mount(end.file, s.maxSize).value, i).1 == (if i < |list| then Some(list[i]) else None)
    decreases |ops|
  {
    hide Represents, FileStep, ListStep, Mount, Read, EnsureIndex;
    Sized(s, blocks);
    if ops == [] {
      RebuiltInPlace(s, blocks);
      MountRepresents(s, blocks, s.maxSize);
      ReadReturns(Mount(s.file, s.maxSize).value, blocks, i);
    } else {
      StepRepresents(s, blocks, ops[0]);
      StepKeepsLimit(s, blocks, ops[0]);
      RunsRebuild(FileStep(s, ops[0]), ListStep(blocks, ops[0], Fits(s, ops[0])), ops[1..], i);
    }
  }

  lemma StepKeepsLimit(s: FileState, blocks: seq<Bytes>, op: FileOp)
    requires Represents(s, blocks)
    requires HEADER_SIZE <= s.currentSize <= |s.file|
    ensures FileStep(s, op).maxSize == s.maxSize
  {
    hide Header, Frames, Scan;
  }

  lemma RebuiltInPlace(s: FileState, blocks: seq<Bytes>)
    requires Represents(s, blocks)
    requires s.currentSize <= |s.file|
    ensures s.indexBuilt ==> EnsureIndex(s.(indexBuilt := false)) == s
  {
    hide Header, Frames, Scan, IndexFrom;
    ScanOfFile(s, blocks);
  }
}
