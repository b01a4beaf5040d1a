/** When the stores take a block and where they put it, in bytes and counts; and what they open. */
module StoreOutcomes {
  import opened Numbers
  import opened Outcomes
  import opened Words
  import opened FileFormat
  import opened FileDirFormat
  import opened DirDirFormat
  import opened LedgerFormat

  // ----- one file -----

  /** A file takes a block if and only if it stays within its limit with the block and the eight bytes of its size. */
  lemma FileTakesIff(s: FileState, block: Bytes)
    requires |s.file| >= 24
    ensures Write(s, block).1.Some? <==> s.currentSize + 8 + |block| <= s.maxSize
    ensures Write(s, block).1.Some? ==>
      Write(s, block).1.value == s.blockCount && Write(s, block).0.blockCount == s.blockCount + 1
      && Write(s, block).0.currentSize == s.currentSize + 8 + |block| && Write(s, block).0.maxSize == s.maxSize
    ensures Write(s, block).1.None? ==> Write(s, block).0 == s
  {
  }

  /** A new file needs a limit of a mebibyte at least; an old one its header, with the magic number and version 0 or 1, as well. */
  lemma FileOpensIff(file: Bytes, maxSize: FileLimit)
    ensures Init(maxSize).Some? <==> maxSize >= 1024 * 1024
    ensures Init(maxSize).Some? ==> |Init(maxSize).value.file| == 24 && Init(maxSize).value.currentSize == 24
    ensures Mount(file, maxSize).Some? <==>
      && maxSize >= 1024 * 1024 && |file| >= 24
      && file[0] == 0x42 && file[1] == 0x46 && file[2] == 0x4C && file[3] == 0x50 && file[4] <= 1 && file[5] == 0
  {
    if |file| >= 24 {
      var magic, version := file[0..4], file[4..6];
      assert magic == [file[0], file[1], file[2], file[3]] && version == [file[4], file[5]];
      FourBytes(file[0], file[1], file[2], file[3]);
      TwoBytes(file[4], file[5]);
    }
  }

  lemma FourBytes(a: byte, b: byte, c: byte, d: byte)
    ensures FromLittleEndian([a, b, c, d]) == a + 0x100 * b + 0x1_0000 * c + 0x100_0000 * d
  {
    assert [a, b, c, d][1..] == [b, c, d] && [b, c, d][1..] == [c, d] && [c, d][1..] == [d] && [d][1..] == [];
    assert FromLittleEndian([d]) == d && FromLittleEndian([c, d]) == c + 0x100 * d;
    assert FromLittleEndian([b, c, d]) == b + 0x100 * c + 0x1_0000 * d;
  }

  lemma TwoBytes(a: byte, b: byte)
    ensures FromLittleEndian([a, b]) == a + 0x100 * b
  {
    assert [a, b][1..] == [b] && [b][1..] == [];
    assert FromLittleEndian([b]) == b;
  }

  // ----- a directory of files -----

  /** The current file is open and stays within its limit. */
  predicate GoesOn(d: FileDir, size: nat) {
    d.currentId in d.files && d.files[d.currentId].store.currentSize + 8 + size <= d.files[d.currentId].store.maxSize
  }

  /** A directory takes a block if and only if it fits into the current file, or there may be another file and it fits into a new one. It
      begins a new file only when it must. */
  lemma DirectoryTakesIff(d: FileDir, block: Bytes)
    requires Headed(d)
    ensures var r := AppendBlock(d, block);
      && (r.1.Some? <==>
            GoesOn(d, |block|) || (|d.files| < d.maxFileCount && d.maxFileSize >= 1024 * 1024 && 32 + |block| <= d.maxFileSize))
      && (r.1.Some? ==> r.1.value == d.total && r.0.total == d.total + 1)
      && (r.1.Some? && GoesOn(d, |block|) ==> r.0.currentId == d.currentId && r.0.order == d.order && r.0.files.Keys == d.files.Keys)
      && (r.1.Some? && !GoesOn(d, |block|) ==>
            && r.0.currentId == d.currentId + 1 && r.0.order == d.order + [d.currentId + 1] && r.0.files.Keys == d.files.Keys + {d.currentId + 1}
            && r.0.files[d.currentId + 1].start == d.total && r.0.files[d.currentId + 1].store.blockCount == 1)
  {
    hide Header, WithCount, Frame;
  }

  // ----- the top store -----

  /** The directory may begin another file and the block is no larger than a file. */
  predicate MayGrow(d: FileDir, size: nat) {
    |d.files| < d.maxFileCount && size <= d.maxFileSize
  }

  /** The root directory takes blocks until it has as many files as it may have, even if the last of them has room. The store then moves it
      away as its first subdirectory. A subdirectory is left for the next one in the same case. */
  lemma StorePlaces(s: DirDir, block: Bytes)
    requires StoreHeaded(s) && AppendStore(s, block).1.Some?
    ensures var next := AppendStore(s, block).0;
      && AppendStore(s, block).1.value == s.total && next.total == s.total + 1
      && (next.root.Some? <==> s.root.Some? && MayGrow(s.root.value, |block|))
      && (s.root.Some? && !MayGrow(s.root.value, |block|) && 1 !in s.order ==> 1 in next.dirs && next.dirs[1].start == 0)
      && (s.root.None? && s.currentId in s.dirs && MayGrow(s.dirs[s.currentId].store, |block|) ==>
            next.currentId == s.currentId && next.order == s.order)
      && (s.root.None? && !(s.currentId in s.dirs && MayGrow(s.dirs[s.currentId].store, |block|)) ==>
            && |s.dirs| < s.maxDirCount && next.currentId == s.currentId + 1 && next.order == s.order + [s.currentId + 1]
            && next.dirs[s.currentId + 1].start == s.total)
  {
    hide AppendBlock, MountFiles, Headed, Init;
  }

  /** A ledger keeps up to a thousand directories of a thousand files of ten mebibytes. */
  lemma LedgerLimits(start: nat)
    ensures var store := InitLedger(start, None).store;
      && store.maxDirCount == 1000 && store.maxFileCount == 1000 && store.maxFileSize == 10 * 1024 * 1024
      && store.root.Some? && store.root.value.maxFileCount == 1000 && store.root.value.maxFileSize == 10 * 1024 * 1024
  {
  }
}
