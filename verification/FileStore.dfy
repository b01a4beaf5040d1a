/** The block file as the object the program holds: its methods change the fields in place and agree with the functions
    of `FileFormat`, whose meaning `FileLaws` states. The file on disk is the field `file`. */
module FileStores {
  import opened Numbers
  import opened Outcomes
  import opened Sequences
  import opened Words
  import opened FileFormat
  import opened FileLaws

  class FileStore {
    var file: Bytes
    var maxSize: FileLimit
    var currentSize: nat
    var blockCount: nat
    var blockIndex: seq<BlockEntry>
    var indexBuilt: bool

    ghost function State(): FileState
      reads this
    {
      FileState(file, maxSize, currentSize, blockCount, blockIndex, indexBuilt)
    }

    constructor ()
      ensures State() == FileState([], 0, 0, 0, [], false)
    {
      file, maxSize, currentSize, blockCount, blockIndex, indexBuilt := [], 0, 0, 0, [], false;
    }

    method Init(limit: FileLimit) returns (ok: bool)
      modifies this
      ensures ok <==> FileFormat.Init(limit).Some?
      ensures ok ==> State() == FileFormat.Init(limit).value && Represents(State(), [])
    {
      hide Represents, Header;
      maxSize, currentSize, blockCount, blockIndex, indexBuilt := limit, 0, 0, [], false;
      if maxSize < MIN_MAX_SIZE {
        return false;
      }
      file := Header(blockCount);
      currentSize := HEADER_SIZE;
      InitRepresents(limit);
      return true;
    }

    method Mount(bytes: Bytes, limit: FileLimit) returns (ok: bool)
      modifies this
      ensures ok <==> FileFormat.Mount(bytes, limit).Some?
      ensures ok ==> State() == FileFormat.Mount(bytes, limit).value
    {
      maxSize, currentSize, blockCount, blockIndex, indexBuilt := limit, 0, 0, [], false;
      if maxSize < MIN_MAX_SIZE {
        return false;
      }
      if !HeaderAccepted(bytes) {
        return false;
      }
      file := bytes;
      currentSize := |file|;
      blockCount := HeaderCount(file);
      return true;
    }

    /** A block that fits goes to the end of the file; one that does not changes nothing. */
    method Write(block: Bytes) returns (r: Option<nat>)
      requires |file| >= HEADER_SIZE
      modifies this
      ensures (State(), r) == FileFormat.Write(old(State()), block)
      ensures forall blocks :: old(Represents(State(), blocks) && AppendReady(State()) && CanFit(State(), |block|)) ==>
        Represents(State(), blocks + [block])
    {
      hide Represents, Frame, LittleEndian, IndexFrom, Frames, Header;
      ghost var was := State();
      if currentSize + SIZE_PREFIX_BYTES + |block| > maxSize {
        return None;
      }
      var offset := |file|;
      file := file + Frame(block);
      blockIndex := blockIndex + [BlockEntry(offset, |block|)];
      indexBuilt := true;
      r := Some(blockCount);
      blockCount := blockCount + 1;
      currentSize := currentSize + SIZE_PREFIX_BYTES + |block|;
      file := WithCount(file, blockCount);
      forall blocks | Represents(was, blocks) && AppendReady(was) ensures Represents(State(), blocks + [block]) {
        Sized(was, blocks);
        WriteRepresentsIff(was, blocks, block);
      }
    }

    /** The scan: one frame after another until one does not fit before the end. It is called only where it ends. */
    method BuildBlockIndex()
      requires currentSize <= |file| && ScanFile(State()).Some?
      modifies this`blockIndex, this`blockCount, this`indexBuilt
      ensures State() == EnsureIndex(old(State()).(indexBuilt := false))
    {
      hide FromLittleEndian, Advance, Offsets;
      blockIndex := [];
      var offset: int := HEADER_SIZE;
      var fileEnd := ToInt64(Wrap(currentSize));
      ghost var visited := {};
      ghost var all := Scan(file, fileEnd, HEADER_SIZE, {}).value;
      while offset + SIZE_PREFIX_BYTES <= fileEnd
        invariant Scan(file, fileEnd, offset, visited).Some?
        invariant blockIndex + Scan(file, fileEnd, offset, visited).value == all
        decreases Offsets(fileEnd) - visited
      {
        if offset < 0 {
          break;
        }
        var blockSize := FromLittleEndian(file[offset..offset + SIZE_PREFIX_BYTES]);
        ScanOnce(file, fileEnd, offset, visited, blockSize);
        if Advance(offset, blockSize) > fileEnd {
          break;
        }
        ghost var rest := Scan(file, fileEnd, Advance(offset, blockSize), visited + {offset}).value;
        Assoc(blockIndex, [BlockEntry(offset, blockSize)], rest);
        blockIndex := blockIndex + [BlockEntry(offset, blockSize)];
        visited := visited + {offset};
        offset := Advance(offset, blockSize);
      }
      indexBuilt := true;
      if |blockIndex| != blockCount {
        blockCount := |blockIndex|;
      }
    }

    method EnsureBlockIndex()
      requires currentSize <= |file| && IndexAvailable(State())
      modifies this`blockIndex, this`blockCount, this`indexBuilt
      ensures State() == EnsureIndex(old(State()))
    {
      if !indexBuilt {
        BuildBlockIndex();
      }
    }

    method ReadBlock(index: nat) returns (r: Option<Bytes>)
      requires currentSize <= |file| && IndexAvailable(State())
      modifies this`blockIndex, this`blockCount, this`indexBuilt
      ensures (State(), r) == Read(old(State()), index)
      ensures forall blocks :: old(Represents(State(), blocks)) ==>
        Represents(State(), blocks) && r == if index < |blocks| then Some(blocks[index]) else None
    {
      hide Represents, ScanFile;
      ghost var was := State();
      EnsureBlockIndex();
      forall blocks | Represents(was, blocks)
        ensures Represents(State(), blocks) && ReadAt(State(), index) == if index < |blocks| then Some(blocks[index]) else None
      {
        ReadReturns(was, blocks, index);
      }
      if index >= |blockIndex| {
        return None;
      }
      var entry := blockIndex[index];
      var dataOffset := entry.offset + SIZE_PREFIX_BYTES;
      if dataOffset + entry.size > |file| {
        return None;
      }
      return Some(file[dataOffset..dataOffset + entry.size]);
    }

    method RewindTo(index: nat) returns (ok: bool)
      requires HEADER_SIZE <= |file| && currentSize <= |file| && IndexAvailable(State())
      modifies this
      ensures (State(), ok) == FileFormat.RewindTo(old(State()), index)
      ensures forall blocks :: old(Represents(State(), blocks)) ==>
        Represents(State(), if index <= |blocks| then blocks[..index] else blocks)
    {
      hide Represents, ScanFile, Header, LittleEndian;
      ghost var was := State();
      forall blocks | Represents(was, blocks)
        ensures Represents(FileFormat.RewindTo(was, index).0, if index <= |blocks| then blocks[..index] else blocks)
      {
        RewindRepresents(was, blocks, index);
      }
      EnsureBlockIndex();
      if index > blockCount {
        return false;
      }
      if index < blockCount {
        if index == 0 {
          currentSize := HEADER_SIZE;
          blockCount := 0;
          blockIndex := [];
          file := Header(blockCount);
        } else {
          if index >= |blockIndex| || !(HEADER_SIZE <= blockIndex[index].offset <= |file|) {
            return false;
          }
          var truncateOffset := blockIndex[index].offset;
          blockCount := index;
          currentSize := truncateOffset;
          blockIndex := blockIndex[..index];
          file := WithCount(file[..truncateOffset], blockCount);
        }
      }
      return true;
    }
  }
}
