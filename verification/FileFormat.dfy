/** A block file: a header that counts the blocks, then each block behind its size. What the file store's operations
    do to it, as functions. */
module FileFormat {
  import opened Numbers
  import opened Outcomes
  import opened Sequences
  import opened Words

  const MAGIC := 0x504C_4642
  const CURRENT_VERSION := 1
  const HEADER_SIZE := 24
  const SIZE_PREFIX_BYTES := 8
  const COUNT_OFFSET := 8
  const MIN_MAX_SIZE := 0x10_0000

  /** Limits on file sizes: file offsets are signed. */
  type FileLimit = x: int | 0 <= x < 0x8000_0000_0000_0000

  /** Where a block starts in the file (at its size prefix), and the size of its data. */
  datatype BlockEntry = BlockEntry(offset: nat, size: nat)

  datatype FileState = FileState(
    file: Bytes, maxSize: FileLimit, currentSize: nat, blockCount: nat, blockIndex: seq<BlockEntry>, indexBuilt: bool)

  /** Magic number, version and reserved word. */
  function HeaderLead(): (r: Bytes)
    ensures |r| == COUNT_OFFSET
    ensures FromLittleEndian(r[0..4]) == MAGIC && FromLittleEndian(r[4..6]) == CURRENT_VERSION
  {
    Widths();
    LittleEndianRoundTrip(MAGIC, 4);
    LittleEndianRoundTrip(CURRENT_VERSION, 2);
    Middle([], LittleEndian(MAGIC, 4), LittleEndian(CURRENT_VERSION, 2) + LittleEndian(0, 2));
    Middle(LittleEndian(MAGIC, 4), LittleEndian(CURRENT_VERSION, 2), LittleEndian(0, 2));
    Regroup([], LittleEndian(MAGIC, 4), LittleEndian(CURRENT_VERSION, 2), LittleEndian(0, 2));
    LittleEndian(MAGIC, 4) + LittleEndian(CURRENT_VERSION, 2) + LittleEndian(0, 2)
  }

  function Header(count: nat): (r: Bytes)
    ensures |r| == HEADER_SIZE
  {
    HeaderLead() + LittleEndian(count, 8) + LittleEndian(HEADER_SIZE, 8)
  }

  function Frame(block: Bytes): (r: Bytes)
    ensures |r| == SIZE_PREFIX_BYTES + |block|
  {
    LittleEndian(|block|, SIZE_PREFIX_BYTES) + block
  }

  function Frames(blocks: seq<Bytes>): Bytes {
    if blocks == [] then [] else Frame(blocks[0]) + Frames(blocks[1..])
  }

  function IndexFrom(blocks: seq<Bytes>, offset: nat): (r: seq<BlockEntry>)
    ensures |r| == |blocks|
  {
    if blocks == [] then []
    else [BlockEntry(offset, |blocks[0]|)] + IndexFrom(blocks[1..], offset + SIZE_PREFIX_BYTES + |blocks[0]|)
  }

  // ----- operations -----

  function Init(maxSize: FileLimit): Option<FileState> {
    if maxSize < MIN_MAX_SIZE then None else Some(FileState(Header(0), maxSize, HEADER_SIZE, 0, [], false))
  }

  function HeaderCount(file: Bytes): nat
    requires |file| >= HEADER_SIZE
  {
    FromLittleEndian(file[COUNT_OFFSET..COUNT_OFFSET + 8])
  }

  predicate HeaderAccepted(file: Bytes) {
    && |file| >= HEADER_SIZE
    && FromLittleEndian(file[0..4]) == MAGIC
    && FromLittleEndian(file[4..6]) <= CURRENT_VERSION
  }

  /** Mounting trusts the header's count and leaves the index for later. */
  function Mount(file: Bytes, maxSize: FileLimit): Option<FileState> {
    if maxSize < MIN_MAX_SIZE || !HeaderAccepted(file) then None
    else Some(FileState(file, maxSize, |file|, HeaderCount(file), [], false))
  }

  predicate CanFit(s: FileState, size: nat) {
    s.currentSize + SIZE_PREFIX_BYTES + size <= s.maxSize
  }

  /** The file with the count in its header replaced. */
  function WithCount(file: Bytes, count: nat): Bytes
    requires |file| >= HEADER_SIZE
  {
    file[..COUNT_OFFSET] + LittleEndian(count, 8) + file[COUNT_OFFSET + 8..]
  }

  /** Appending: the index is taken to be built from now on, whether or not it was. */
  function Write(s: FileState, block: Bytes): (FileState, Option<nat>)
    requires |s.file| >= HEADER_SIZE
  {
    if !CanFit(s, |block|) then (s, None)
    else
      (FileState(WithCount(s.file + Frame(block), s.blockCount + 1), s.maxSize,
                 s.currentSize + SIZE_PREFIX_BYTES + |block|, s.blockCount + 1,
                 s.blockIndex + [BlockEntry(|s.file|, |block|)], true),
       Some(s.blockCount))
  }

  /** Where the scan goes on behind a frame: the size is added to the prefix's own width in unsigned arithmetic and the sum
      to the offset in signed arithmetic. */
  function Advance(offset: nat, size: nat): int {
    ToInt64(Wrap(offset + ToInt64(Wrap(SIZE_PREFIX_BYTES + size))))
  }

  function Offsets(end: int): (r: set<int>)
    ensures forall x :: x in r <==> 0 <= x <= end
    decreases if end < 0 then 0 else end + 1
  {
    if end < 0 then {} else Offsets(end - 1) + {end}
  }

  /** The scan of `buildBlockIndex` from `offset` to `end`: it stops at the first frame that does not fit, or when it cannot
      seek. An offset met twice is met for ever: `None`, the program stays in the loop. */
  function Scan(file: Bytes, end: int, offset: int, visited: set<int>): Option<seq<BlockEntry>>
    requires end <= |file|
    decreases Offsets(end) - visited
  {
    if offset + SIZE_PREFIX_BYTES > end || offset < 0 then Some([])
    else if offset in visited then None
    else
      assert offset in Offsets(end) - visited;
      var size := FromLittleEndian(file[offset..offset + SIZE_PREFIX_BYTES]);
      if Advance(offset, size) > end then Some([])
      else
        match Scan(file, end, Advance(offset, size), visited + {offset})
        case None => None
        case Some(more) => Some([BlockEntry(offset, size)] + more)
  }

  /** One round of the scan. */
  lemma ScanOnce(file: Bytes, end: int, offset: int, visited: set<int>, size: nat)
    requires 0 <= offset && offset + SIZE_PREFIX_BYTES <= end <= |file| && Scan(file, end, offset, visited).Some?
    requires size == FromLittleEndian(file[offset..offset + SIZE_PREFIX_BYTES])
    ensures offset in Offsets(end) - visited
    ensures Advance(offset, size) > end ==> Scan(file, end, offset, visited).value == []
    ensures Advance(offset, size) <= end ==>
      var rest := Scan(file, end, Advance(offset, size), visited + {offset});
      rest.Some? && Scan(file, end, offset, visited).value == [BlockEntry(offset, size)] + rest.value
  {
    hide FromLittleEndian, Advance;
  }

  function ScanFile(s: FileState): Option<seq<BlockEntry>>
    requires s.currentSize <= |s.file|
  {
    Scan(s.file, ToInt64(Wrap(s.currentSize)), HEADER_SIZE, {})
  }

  /** The next operation that needs the index gets it. */
  predicate IndexAvailable(s: FileState)
    requires s.currentSize <= |s.file|
  {
    s.indexBuilt || ScanFile(s).Some?
  }

  /** The state with its index built. Where the scan never ends there is no such state; `s` then stands for the program in
      the loop. */
  function EnsureIndex(s: FileState): FileState
    requires s.currentSize <= |s.file|
  {
    if s.indexBuilt then s
    else
      match ScanFile(s)
      case None => s
      case Some(scanned) => s.(blockIndex := scanned, blockCount := |scanned|, indexBuilt := true)
  }

  function ReadAt(s: FileState, index: nat): Option<Bytes> {
    if index >= |s.blockIndex| then None
    else
      var e := s.blockIndex[index];
      var start := e.offset + SIZE_PREFIX_BYTES;
      if start + e.size > |s.file| then None else Some(s.file[start..start + e.size])
  }

  /** Reading builds the index first. */
  function Read(s: FileState, index: nat): (FileState, Option<Bytes>)
    requires s.currentSize <= |s.file|
  {
    (EnsureIndex(s), ReadAt(EnsureIndex(s), index))
  }

  function RewindTo(s: FileState, index: nat): (FileState, bool)
    requires HEADER_SIZE <= |s.file| && s.currentSize <= |s.file|
  {
    var built := EnsureIndex(s);
    if index > built.blockCount then (built, false)
    else if index == built.blockCount then (built, true)
    else if index == 0 then
      (built.(file := Header(0), currentSize := HEADER_SIZE, blockCount := 0, blockIndex := []), true)
    else if index >= |built.blockIndex| || !(HEADER_SIZE <= built.blockIndex[index].offset <= |built.file|) then (built, false)
    else
      var offset := built.blockIndex[index].offset;
      (built.(file := WithCount(built.file[..offset], index), currentSize := offset, blockCount := index,
              blockIndex := built.blockIndex[..index]), true)
  }

  // ----- what a file stands for -----

  predicate SizesFit(blocks: seq<Bytes>) {
    forall i | 0 <= i < |blocks| :: |blocks[i]| < TWO_64
  }

  /** The store's bytes and bookkeeping are exactly those of the block list. */
  ghost predicate Represents(s: FileState, blocks: seq<Bytes>) {
    && SizesFit(blocks) && |blocks| < TWO_64 && |s.file| <= INT64_MAX
    && s.file == Header(|blocks|) + Frames(blocks)
    && s.currentSize == |s.file| && s.blockCount == |blocks|
    && (s.indexBuilt ==> s.blockIndex == IndexFrom(blocks, HEADER_SIZE))
    && (!s.indexBuilt ==> s.blockIndex == [])
  }

  /** Bytes that begin a frame but do not complete it. */
  predicate Incomplete(tail: Bytes) {
    |tail| < SIZE_PREFIX_BYTES || |tail| < SIZE_PREFIX_BYTES + FromLittleEndian(tail[..SIZE_PREFIX_BYTES])
  }

  lemma {:induction false} FramesAppend(blocks: seq<Bytes>, block: Bytes)
    ensures Frames(blocks + [block]) == Frames(blocks) + Frame(block)
  {
    if blocks == [] {
      assert [block][1..] == [];
      assert [] + [block] == [block];
    } else {
      assert (blocks + [block])[1..] == blocks[1..] + [block];
      FramesAppend(blocks[1..], block);
    }
  }

  lemma IndexUnfold(blocks: seq<Bytes>, offset: nat)
    requires blocks != []
    ensures IndexFrom(blocks, offset)
         == [BlockEntry(offset, |blocks[0]|)] + IndexFrom(blocks[1..], offset + SIZE_PREFIX_BYTES + |blocks[0]|)
    ensures |Frames(blocks)| == SIZE_PREFIX_BYTES + |blocks[0]| + |Frames(blocks[1..])|
  {
    hide LittleEndian;
  }

  lemma {:induction false} IndexAppend(blocks: seq<Bytes>, block: Bytes, offset: nat)
    ensures IndexFrom(blocks + [block], offset) == IndexFrom(blocks, offset) + [BlockEntry(offset + |Frames(blocks)|, |block|)]
  {
    hide IndexFrom, Frames;
    IndexUnfold(blocks + [block], offset);
    if blocks == [] {
      NothingIndexed(offset);
      NothingIndexed(offset + SIZE_PREFIX_BYTES + |block|);
      assert [] + [block] == [block];
      assert [block][1..] == [];
    } else {
      var rest, next := blocks[1..], offset + SIZE_PREFIX_BYTES + |blocks[0]|;
      IndexUnfold(blocks, offset);
      assert (blocks + [block])[1..] == rest + [block];
      IndexAppend(rest, block, next);
      Assoc([BlockEntry(offset, |blocks[0]|)], IndexFrom(rest, next), [BlockEntry(next + |Frames(rest)|, |block|)]);
    }
  }

  lemma NothingIndexed(offset: nat)
    ensures IndexFrom([], offset) == [] && Frames([]) == []
  {
  }

  lemma FrameSizeReadsBack(file: Bytes, before: Bytes, block: Bytes, after: Bytes)
    requires |block| < TWO_64 && file == before + Frame(block) + after
    ensures |file| == |before| + SIZE_PREFIX_BYTES + |block| + |after|
    ensures FromLittleEndian(file[|before|..|before| + SIZE_PREFIX_BYTES]) == |block|
    ensures file[|before| + SIZE_PREFIX_BYTES..|before| + SIZE_PREFIX_BYTES + |block|] == block
  {
    hide LittleEndian, FromLittleEndian, Pow256;
    Widths();
    LittleEndianRoundTrip(|block|, SIZE_PREFIX_BYTES);
    var prefix := LittleEndian(|block|, SIZE_PREFIX_BYTES);
    Regroup(before, prefix, block, after);
    Middle(before, prefix, block + after);
    Middle(before + prefix, block, after);
  }

  // ----- the scan -----

  /** The arithmetic of one step: within 64-bit offsets it moves to the end of the frame, and it sees that a frame does not
      fit exactly when the frame's end is representable. */
  lemma AdvanceMeaning(offset: nat, size: nat, end: nat)
    requires offset + SIZE_PREFIX_BYTES <= end <= INT64_MAX && size < TWO_64
    ensures offset + SIZE_PREFIX_BYTES + size <= INT64_MAX ==> Advance(offset, size) == offset + SIZE_PREFIX_BYTES + size
    ensures Advance(offset, size) > end <==> end < offset + SIZE_PREFIX_BYTES + size <= INT64_MAX
  {
  }

  /** The offsets of the frames of a list of blocks. */
  function Starts(blocks: seq<Bytes>, offset: nat): (r: set<int>)
    ensures forall x | x in r :: offset <= x < offset + |Frames(blocks)|
  {
    if blocks == [] then {}
    else
      assert |Frames(blocks)| == SIZE_PREFIX_BYTES + |blocks[0]| + |Frames(blocks[1..])|;
      {offset as int} + Starts(blocks[1..], offset + SIZE_PREFIX_BYTES + |blocks[0]|)
  }

  predicate AllBelow(visited: set<int>, offset: int) {
    forall x | x in visited :: x < offset
  }

  function Behind(es: seq<BlockEntry>, r: Option<seq<BlockEntry>>): Option<seq<BlockEntry>> {
    if r.None? then None else Some(es + r.value)
  }

  lemma ScanStep(file: Bytes, end: nat, offset: nat, size: nat, visited: set<int>)
    requires offset + SIZE_PREFIX_BYTES + size <= end <= |file| && end <= INT64_MAX && offset !in visited
    requires FromLittleEndian(file[offset..offset + SIZE_PREFIX_BYTES]) == size
    ensures Scan(file, end, offset, visited)
         == Behind([BlockEntry(offset, size)], Scan(file, end, offset + SIZE_PREFIX_BYTES + size, visited + {offset}))
  {
    hide FromLittleEndian, Advance;
    AdvanceMeaning(offset, size, end);
  }

  lemma BehindBoth(xs: seq<BlockEntry>, ys: seq<BlockEntry>, r: Option<seq<BlockEntry>>)
    ensures Behind(xs, Behind(ys, r)) == Behind(xs + ys, r)
    ensures Behind([], r) == r
  {
    if r.Some? {
      Assoc(xs, ys, r.value);
      assert [] + r.value == r.value;
    }
  }

  /** The scan passes over complete frames, whatever follows them. */
  lemma {:induction false} ScanPasses(before: Bytes, blocks: seq<Bytes>, tail: Bytes, visited: set<int>)
    requires |before + Frames(blocks) + tail| <= INT64_MAX && AllBelow(visited, |before|)
    ensures var file := before + Frames(blocks) + tail;
      Scan(file, |file|, |before|, visited)
        == Behind(IndexFrom(blocks, |before|),
                  Scan(file, |file|, |before| + |Frames(blocks)|, visited + Starts(blocks, |before|)))
    decreases |blocks|
  {
    hide Frame, FromLittleEndian, Scan, Behind, IndexFrom, Frames, Starts;
    var file := before + Frames(blocks) + tail;
    if blocks == [] {
      NothingIndexed(|before|);
      NothingStarts(|before|);
      assert visited + Starts([], |before|) == visited;
      BehindBoth([], [], Scan(file, |file|, |before|, visited));
    } else {
      var first, rest := Frame(blocks[0]), Frames(blocks[1..]);
      IndexUnfold(blocks, |before|);
      StartsUnfold(blocks, |before|);
      Regroup(before, first, rest, tail);
      FrameSizeReadsBack(file, before, blocks[0], rest + tail);
      ScanStep(file, |file|, |before|, |blocks[0]|, visited);
      Assoc(before + first, rest, tail);
      ScanPasses(before + first, blocks[1..], tail, visited + {|before|});
      var next := |before| + SIZE_PREFIX_BYTES + |blocks[0]|;
      assert visited + {|before| as int} + Starts(blocks[1..], next) == visited + Starts(blocks, |before|);
      BehindBoth([BlockEntry(|before|, |blocks[0]|)], IndexFrom(blocks[1..], next),
                 Scan(file, |file|, |before| + |Frames(blocks)|, visited + Starts(blocks, |before|)));
    }
  }

  lemma NothingStarts(offset: nat)
    ensures Starts([], offset) == {}
  {
  }

  lemma StartsUnfold(blocks: seq<Bytes>, offset: nat)
    requires blocks != []
    ensures Starts(blocks, offset) == {offset as int} + Starts(blocks[1..], offset + SIZE_PREFIX_BYTES + |blocks[0]|)
    ensures Frames(blocks) == Frame(blocks[0]) + Frames(blocks[1..])
  {
    hide Frame;
  }

  /** The end of the frame that the tail begins is representable, or the tail is too short to say. */
  predicate EndsRepresentably(tail: Bytes, at: nat) {
    |tail| < SIZE_PREFIX_BYTES || at + SIZE_PREFIX_BYTES + FromLittleEndian(tail[..SIZE_PREFIX_BYTES]) <= INT64_MAX
  }

  /** Scanning complete frames followed by an incomplete one yields exactly the index of the complete ones if and only if
      the incomplete frame claims an end that is representable. Otherwise the sum wraps, and the frame is indexed too or
      the scan never ends. */
  lemma ScanRebuildsIff(before: Bytes, blocks: seq<Bytes>, tail: Bytes)
    requires |before + Frames(blocks) + tail| <= INT64_MAX && Incomplete(tail)
    ensures var file := before + Frames(blocks) + tail;
      (Scan(file, |file|, |before|, {}) == Some(IndexFrom(blocks, |before|))) <==>
      EndsRepresentably(tail, |before| + |Frames(blocks)|)
  {
    hide Scan, IndexFrom, Frames, Starts, Incomplete, EndsRepresentably, Behind;
    ScanPasses(before, blocks, tail, {});
    ScanEndsIff(before + Frames(blocks), tail, Starts(blocks, |before|));
    assert {} + Starts(blocks, |before|) == Starts(blocks, |before|);
    var file := before + Frames(blocks) + tail;
    BehindNothing(IndexFrom(blocks, |before|), Scan(file, |file|, |before| + |Frames(blocks)|, Starts(blocks, |before|)));
  }

  lemma BehindNothing(es: seq<BlockEntry>, r: Option<seq<BlockEntry>>)
    ensures Behind(es, r) == Some(es) <==> r == Some([])
  {
    assert r.Some? && |r.value| > 0 ==> |es + r.value| > |es|;
    assert es + [] == es;
  }

  lemma SizeBound(prefix: Bytes)
    requires |prefix| == SIZE_PREFIX_BYTES
    ensures FromLittleEndian(prefix) < TWO_64
  {
    hide FromLittleEndian, Pow256;
    LittleEndianBound(prefix);
    Widths();
  }

  lemma ScanEndsIff(before: Bytes, tail: Bytes, visited: set<int>)
    requires |before + tail| <= INT64_MAX && Incomplete(tail) && AllBelow(visited, |before|)
    ensures Scan(before + tail, |before + tail|, |before|, visited) == Some([]) <==> EndsRepresentably(tail, |before|)
  {
    hide FromLittleEndian, Advance;
    if |tail| >= SIZE_PREFIX_BYTES {
      assert (before + tail)[|before|..|before| + SIZE_PREFIX_BYTES] == tail[..SIZE_PREFIX_BYTES];
      SizeBound(tail[..SIZE_PREFIX_BYTES]);
      AdvanceMeaning(|before|, FromLittleEndian(tail[..SIZE_PREFIX_BYTES]), |before + tail|);
    }
  }

  lemma {:induction false} FramesSplit(blocks: seq<Bytes>, i: nat)
    requires i < |blocks|
    ensures Frames(blocks) == Frames(blocks[..i]) + (Frame(blocks[i]) + Frames(blocks[i + 1..]))
    decreases i
  {
    hide Frame;
    if i == 0 {
      assert blocks[..0] == [];
    } else {
      FramesSplit(blocks[1..], i - 1);
      assert blocks[1..][..i - 1] == blocks[1..i] == blocks[..i][1..];
      assert blocks[1..][i..] == blocks[i + 1..];
      Assoc(Frame(blocks[0]), Frames(blocks[1..i]), Frame(blocks[i]) + Frames(blocks[i + 1..]));
    }
  }

  /** The entry of block `i` points at its frame. */
  lemma {:induction false} EntryAt(blocks: seq<Bytes>, offset: nat, i: nat)
    requires i < |blocks|
    ensures IndexFrom(blocks, offset)[i] == BlockEntry(offset + |Frames(blocks[..i])|, |blocks[i]|)
    ensures IndexFrom(blocks, offset)[..i] == IndexFrom(blocks[..i], offset)
    decreases i
  {
    hide Frame, IndexFrom, Frames;
    IndexUnfold(blocks, offset);
    if i == 0 {
      assert blocks[..0] == [];
      NothingIndexed(offset);
    } else {
      var next, rest := offset + SIZE_PREFIX_BYTES + |blocks[0]|, blocks[1..];
      EntryAt(rest, next, i - 1);
      assert blocks[..i][0] == blocks[0] && rest[..i - 1] == blocks[..i][1..];
      IndexUnfold(blocks[..i], offset);
      var first := [BlockEntry(offset, |blocks[0]|)];
      assert (first + IndexFrom(rest, next))[..i] == first + IndexFrom(rest, next)[..i - 1];
    }
  }

  /** The bytes an entry points at are its block. */
  lemma BlockAt(file: Bytes, before: Bytes, blocks: seq<Bytes>, tail: Bytes, i: nat)
    requires i < |blocks| && |file| <= INT64_MAX && file == before + Frames(blocks) + tail
    ensures var start := |before| + |Frames(blocks[..i])| + SIZE_PREFIX_BYTES;
      start + |blocks[i]| <= |file| && file[start..start + |blocks[i]|] == blocks[i]
  {
    hide Frame, Frames;
    var head, frame, rest := Frames(blocks[..i]), Frame(blocks[i]), Frames(blocks[i + 1..]);
    FramesSplit(blocks, i);
    assert file == (before + head) + frame + (rest + tail) by {
      Regroup(before, head, frame + rest, tail);
      Regroup(before + head, frame, rest, tail);
    }
    FrameSizeReadsBack(file, before + head, blocks[i], rest + tail);
  }
}
