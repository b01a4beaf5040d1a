/** Looking transactions up: by their index in the whole chain, by halving the range of blocks, and by wallet, page by
    page from the newest block back. */
module TxSearch {
  import opened Numbers
  import opened Outcomes
  import opened Sequences
  import opened ChainTypes
  import opened LedgerView
  import ChainSpec
  import Runs
  import Overlay

  const MAX_BLOCKS_TO_SCAN := 32
  const THRESHOLD_TXES := 32

  /** All records of the first `n` blocks, oldest first. */
  function Records(l: Ledger, n: nat): seq<Record>
    requires n <= |l.nodes|
  {
    if n == 0 then [] else Records(l, n - 1) + l.nodes[n - 1].block.records
  }

  /** Every block's `txIndex` counts the records before it, as block validation keeps it. */
  ghost predicate Counted(l: Ledger) {
    forall i | 0 < i < |l.nodes| ::
      l.nodes[i].block.txIndex == l.nodes[i - 1].block.txIndex + |l.nodes[i - 1].block.records|
  }

  function FirstIndex(l: Ledger): nat {
    if l.nodes == [] then 0 else l.nodes[0].block.txIndex
  }

  lemma {:induction false} IndexCounts(l: Ledger, n: nat)
    requires Counted(l) && n < |l.nodes|
    ensures l.nodes[n].block.txIndex == FirstIndex(l) + |Records(l, n)|
  {
    if n > 0 {
      IndexCounts(l, n - 1);
    }
  }

  lemma {:induction false} RecordsPrefix(l: Ledger, n: nat, m: nat)
    requires n <= m <= |l.nodes|
    ensures |Records(l, n)| <= |Records(l, m)| && Records(l, m)[..|Records(l, n)|] == Records(l, n)
  {
    if n < m {
      RecordsPrefix(l, n, m - 1);
    }
  }

  lemma RecordAt(l: Ledger, n: nat, k: nat)
    requires n < |l.nodes| && k < |l.nodes[n].block.records|
    ensures |Records(l, n)| + k < |Records(l, |l.nodes|)|
    ensures Records(l, |l.nodes|)[|Records(l, n)| + k] == l.nodes[n].block.records[k]
  {
    RecordsPrefix(l, n + 1, |l.nodes|);
    assert Records(l, n + 1)[|Records(l, n)| + k] == l.nodes[n].block.records[k];
    assert Records(l, |l.nodes|)[..|Records(l, n + 1)|][|Records(l, n)| + k] == Records(l, n + 1)[|Records(l, n)| + k];
  }

  /** The record with a chain-wide index: the one at that place of the flat list; errors outside the stored range. */
  function RecordWithIndex(l: Ledger, txIndex: nat): Result<Record> {
    if l.nodes == [] then Err(LedgerRead)
    else if txIndex >= FirstIndex(l) + |Records(l, |l.nodes|)| then Err(InvalidArgument)
    else if txIndex < FirstIndex(l) then Err(LedgerRead)
    else Ok(Records(l, |l.nodes|)[txIndex - FirstIndex(l)])
  }

  /** Searching the blocks finds exactly the record at that place of all blocks' records put together, empty blocks
      included, and fails exactly outside the stored range. */
  method FindTransactionByIndex(l: Ledger, txIndex: nat) returns (r: Result<Record>)
    requires Counted(l)
    ensures r == RecordWithIndex(l, txIndex)
  {
    hide Records;
    if l.nodes == [] {
      return Err(LedgerRead);
    }
    var last := l.nodes[|l.nodes| - 1].block;
    var total := last.txIndex + |last.records|;
    TotalCounts(l);
    if txIndex >= total {
      return Err(InvalidArgument);
    }
    var low, high := l.start, l.Next() - 1;
    while low <= high
      invariant l.start <= low <= high + 1 <= l.Next()
      invariant forall i | l.start <= i < low :: EndsBy(l, i, txIndex)
      invariant forall i | high < i < l.Next() :: txIndex < l.At(i).txIndex
      decreases high - low + 1
    {
      var mid: nat := low + (high - low) / 2;
      var block := l.At(mid);
      var blockStart := block.txIndex;
      var blockTxCount := |block.records|;
      if txIndex < blockStart {
        StartsGrow(l, mid);
        if mid == l.start {
          break;
        }
        high := mid - 1;
        continue;
      }
      EndsGrow(l, mid, txIndex);
      if blockTxCount == 0 {
        low := mid + 1;
        continue;
      }
      var blockEnd := blockStart + blockTxCount;
      if txIndex >= blockEnd {
        low := mid + 1;
        continue;
      }
      var localIndex := txIndex - blockStart;
      IndexCounts(l, mid - l.start);
      RecordAt(l, mid - l.start, localIndex);
      return Ok(block.records[localIndex]);
    }
    if low > high && low > l.start {
      NotBehind(l, txIndex, low);
      assert false;
    }
    assert txIndex < l.At(l.start).txIndex;
    return Err(LedgerRead);
  }

  /** The block's records all come before the index. */
  predicate EndsBy(l: Ledger, i: nat, txIndex: nat)
    requires l.Has(i)
  {
    l.At(i).txIndex + |l.At(i).records| <= txIndex
  }

  lemma TotalCounts(l: Ledger)
    requires Counted(l) && l.nodes != []
    ensures var last := l.nodes[|l.nodes| - 1].block;
      last.txIndex + |last.records| == FirstIndex(l) + |Records(l, |l.nodes|)|
  {
    IndexCounts(l, |l.nodes| - 1);
  }

  /** Starting indexes never decrease. */
  lemma {:induction false} IndexMonotone(l: Ledger, i: nat, j: nat)
    requires Counted(l) && i <= j < |l.nodes|
    ensures l.nodes[i].block.txIndex <= l.nodes[j].block.txIndex
    ensures i < j ==> l.nodes[i].block.txIndex + |l.nodes[i].block.records| <= l.nodes[j].block.txIndex
    decreases j - i
  {
    if i < j {
      IndexMonotone(l, i, j - 1);
    }
  }

  lemma StartsGrow(l: Ledger, mid: nat)
    requires Counted(l) && l.Has(mid)
    ensures forall i | mid <= i < l.Next() :: l.At(mid).txIndex <= l.At(i).txIndex
  {
    forall i | mid <= i < l.Next() ensures l.At(mid).txIndex <= l.At(i).txIndex {
      IndexMonotone(l, mid - l.start, i - l.start);
    }
  }

  lemma EndsGrow(l: Ledger, mid: nat, txIndex: nat)
    requires Counted(l) && l.Has(mid) && l.At(mid).txIndex <= txIndex
    ensures forall i | l.start <= i < mid :: EndsBy(l, i, txIndex)
  {
    forall i | l.start <= i < mid ensures EndsBy(l, i, txIndex) {
      IndexMonotone(l, i - l.start, mid - l.start);
    }
  }

  /** An index before the next block, or before the end of the last, is not behind the block before. */
  lemma NotBehind(l: Ledger, txIndex: nat, low: nat)
    requires Counted(l) && l.start < low <= l.Next()
    requires low < l.Next() ==> txIndex < l.At(low).txIndex
    requires low == l.Next() ==> txIndex < l.At(low - 1).txIndex + |l.At(low - 1).records|
    ensures !EndsBy(l, low - 1, txIndex)
  {
    if low < l.Next() {
      assert l.nodes[low - l.start].block.txIndex
          == l.nodes[low - 1 - l.start].block.txIndex + |l.nodes[low - 1 - l.start].block.records|;
    }
  }

  // ----- the history of a wallet -----

  /** Whether a record concerns the wallet. */
  predicate MatchesWallet(codec: Codec, rec: Record, wallet: Id) {
    match codec.decode(rec)
    case None => false
    case Some(tx) =>
      match tx
      case TxDefault(_, from, to, _, _, _, _) => from == wallet || to == wallet
      case TxNewUser(from, to, _, _, _, _) => from == wallet || to == wallet
      case TxGenesis(_, _) => wallet == ID_GENESIS
      case TxConfig(_, _, _) => wallet == ID_GENESIS
      case TxUserUpdate(id, _, _, _) => id == wallet
      case TxRenewal(id, _, _) => id == wallet
      case TxEndUser(id, _, _) => id == wallet
  }

  /** The matching records, newest first. */
  function NewestFirst(codec: Codec, recs: seq<Record>, wallet: Id): seq<Record> {
    if recs == [] then []
    else
      (if MatchesWallet(codec, recs[|recs| - 1], wallet) then [recs[|recs| - 1]] else []) +
        NewestFirst(codec, recs[..|recs| - 1], wallet)
  }

  lemma {:induction false} NewestFirstJoins(codec: Codec, a: seq<Record>, b: seq<Record>, wallet: Id)
    ensures NewestFirst(codec, a + b, wallet) == NewestFirst(codec, b, wallet) + NewestFirst(codec, a, wallet)
  {
    if b == [] {
      assert a + b == a;
    } else {
      assert (a + b)[..|a + b| - 1] == a + b[..|b| - 1];
      NewestFirstJoins(codec, a, b[..|b| - 1], wallet);
      Assoc(if MatchesWallet(codec, b[|b| - 1], wallet) then [b[|b| - 1]] else [],
            NewestFirst(codec, b[..|b| - 1], wallet), NewestFirst(codec, a, wallet));
    }
  }

  function Min(a: nat, b: nat): nat {
    if a <= b then a else b
  }

  /** The block to scan back from: 0 stands for the tip. */
  function FirstCursor(l: Ledger, io: nat): nat {
    Min(if io == 0 then l.Next() else io, l.Next())
  }

  /** One page from the cursor: the records found so far and the last block scanned. */
  function Page(codec: Codec, l: Ledger, wallet: Id, cursor: nat, scanned: nat, found: seq<Record>): Result<(seq<Record>, nat)>
    requires cursor <= l.Next()
    decreases cursor
  {
    if cursor == 0 || scanned >= MAX_BLOCKS_TO_SCAN then Ok((found, cursor))
    else if !l.Has(cursor - 1) then Err(BlockNotFound)
    else
      var more := found + NewestFirst(codec, l.At(cursor - 1).records, wallet);
      if |more| >= THRESHOLD_TXES then Ok((more, cursor - 1)) else Page(codec, l, wallet, cursor - 1, scanned + 1, more)
  }

  /** A page with its records and the cursor for the next one, 0 at the end. */
  function FindPage(codec: Codec, l: Ledger, wallet: Id, io: nat): Result<(seq<Record>, nat)> {
    Page(codec, l, wallet, FirstCursor(l, io), 0, [])
  }

  method FindTransactionsByWalletId(codec: Codec, l: Ledger, wallet: Id, io: nat) returns (r: Result<(seq<Record>, nat)>)
    ensures r == FindPage(codec, l, wallet, io)
  {
    hide NewestFirst, MatchesWallet;
    var out: seq<Record> := [];
    var nextId := l.Next();
    var current: nat := Min(if io == 0 then nextId else io, nextId);
    if current == 0 {
      return Ok((out, current));
    }
    var scanned := 0;
    while current > 0 && scanned < MAX_BLOCKS_TO_SCAN
      invariant current <= nextId && scanned <= MAX_BLOCKS_TO_SCAN
      invariant FindPage(codec, l, wallet, io) == Page(codec, l, wallet, current, scanned, out)
    {
      current := current - 1;
      var node := ReadBlock(l, current);
      if node.None? {
        return Err(BlockNotFound);
      }
      var recs := node.value.block.records;
      out := ScanBlock(codec, recs, wallet, out);
      scanned := scanned + 1;
      if |out| >= THRESHOLD_TXES {
        break;
      }
    }
    return Ok((out, current));
  }

  method ScanBlock(codec: Codec, recs: seq<Record>, wallet: Id, found: seq<Record>) returns (out: seq<Record>)
    ensures out == found + NewestFirst(codec, recs, wallet)
  {
    hide MatchesWallet;
    out := found;
    var i := |recs|;
    assert recs[..i] == recs;
    while i > 0
      invariant i <= |recs|
      invariant out + NewestFirst(codec, recs[..i], wallet) == found + NewestFirst(codec, recs, wallet)
    {
      i := i - 1;
      assert recs[..i + 1][..i] == recs[..i];
      ghost var rest := NewestFirst(codec, recs[..i], wallet);
      if MatchesWallet(codec, recs[i], wallet) {
        Assoc(out, [recs[i]], rest);
        out := out + [recs[i]];
      } else {
        assert [] + rest == rest;
      }
    }
    assert recs[..0] == [] && out + [] == out;
  }

  /** On a ledger from block 0, what a page returns and what lies before its new cursor make up what lay before its old
      one; the cursor goes down with every page. */
  lemma {:induction false} PageMeaning(codec: Codec, l: Ledger, wallet: Id, cursor: nat, scanned: nat, found: seq<Record>)
    requires l.start == 0 && cursor <= l.Next()
    ensures var r := Page(codec, l, wallet, cursor, scanned, found);
      && r.Ok?
      && (cursor > 0 && scanned < MAX_BLOCKS_TO_SCAN ==> r.value.1 < cursor) && r.value.1 <= cursor
      && r.value.0 + NewestFirst(codec, Records(l, r.value.1), wallet) == found + NewestFirst(codec, Records(l, cursor), wallet)
    decreases cursor
  {
    hide NewestFirst, MatchesWallet;
    if cursor > 0 && scanned < MAX_BLOCKS_TO_SCAN {
      var recs := l.At(cursor - 1).records;
      var more := found + NewestFirst(codec, recs, wallet);
      NewestFirstJoins(codec, Records(l, cursor - 1), recs, wallet);
      Assoc(found, NewestFirst(codec, recs, wallet), NewestFirst(codec, Records(l, cursor - 1), wallet));
      if |more| < THRESHOLD_TXES {
        PageMeaning(codec, l, wallet, cursor - 1, scanned + 1, more);
      }
    }
  }

  /** A page ends where it has 32 records, or after 32 blocks, or with block 0. */
  lemma {:induction false} PageEnds(codec: Codec, l: Ledger, wallet: Id, cursor: nat, scanned: nat, found: seq<Record>)
    requires l.start == 0 && cursor <= l.Next() && scanned <= 32
    ensures Page(codec, l, wallet, cursor, scanned, found).Ok?
    ensures var r := Page(codec, l, wallet, cursor, scanned, found).value;
      r.1 <= cursor <= r.1 + 32 - scanned && (r.1 == 0 || cursor == r.1 + 32 - scanned || |r.0| >= 32)
    decreases cursor
  {
    hide NewestFirst, MatchesWallet;
    if cursor > 0 && scanned < 32 {
      var more := found + NewestFirst(codec, l.At(cursor - 1).records, wallet);
      if |more| < 32 {
        PageEnds(codec, l, wallet, cursor - 1, scanned + 1, more);
      }
    }
  }

  /** It does not go on when it has 32 records: without those of its last block it has fewer. */
  lemma {:induction false} PageStops(codec: Codec, l: Ledger, wallet: Id, cursor: nat, scanned: nat, found: seq<Record>)
    requires l.start == 0 && cursor <= l.Next() && scanned < 32 && cursor > 0 && |found| < 32
    requires Page(codec, l, wallet, cursor, scanned, found).Ok?
    ensures var r := Page(codec, l, wallet, cursor, scanned, found).value;
      r.1 < cursor && |r.0| < 32 + |NewestFirst(codec, l.At(r.1).records, wallet)|
    decreases cursor
  {
    hide NewestFirst, MatchesWallet;
    var more := found + NewestFirst(codec, l.At(cursor - 1).records, wallet);
    if |more| < 32 && cursor > 1 && scanned < 31 {
      PageStops(codec, l, wallet, cursor - 1, scanned + 1, more);
    }
  }

  /** A wallet's history holds the records that name it: every record whose handler may touch its account, except that fees do not put a
      record into the history of the fee account, nor endings into that of the recycle account. */
  lemma MatchesWhatTouches(codec: Codec, rec: Record, wallet: Id)
    requires codec.decode(rec).Some?
    ensures MatchesWallet(codec, rec, wallet) ==> wallet in Overlay.Touched(codec.decode(rec).value)
    ensures wallet in Overlay.Touched(codec.decode(rec).value) && !MatchesWallet(codec, rec, wallet) ==>
      var tx := codec.decode(rec).value;
      (wallet == 1 && tx.fee > 0 && !tx.TxEndUser?) || (wallet == 3 && tx.TxEndUser?)
    ensures var tx := codec.decode(rec).value;
      (wallet == 1 || wallet == 3) && MatchesWallet(codec, rec, wallet) ==>
        ((tx.TxDefault? || tx.TxNewUser?) && (tx.fromWalletId == wallet || tx.toWalletId == wallet))
        || ((tx.TxUserUpdate? || tx.TxRenewal? || tx.TxEndUser?) && tx.walletId == wallet)
  {
  }

  /** All pages, one call after another until the cursor returns to 0. */
  function AllPages(codec: Codec, l: Ledger, wallet: Id, cursor: nat): seq<Record>
    requires l.start == 0 && 0 < cursor <= l.Next()
    decreases cursor
  {
    PageMeaning(codec, l, wallet, cursor, 0, []);
    var (out, next) := FindPage(codec, l, wallet, cursor).value;
    if next == 0 then out else out + AllPages(codec, l, wallet, next)
  }

  lemma {:induction false} PagesFrom(codec: Codec, l: Ledger, wallet: Id, cursor: nat)
    requires l.start == 0 && 0 < cursor <= l.Next()
    ensures AllPages(codec, l, wallet, cursor) == NewestFirst(codec, Records(l, cursor), wallet)
    decreases cursor
  {
    hide NewestFirst, Page;
    PageMeaning(codec, l, wallet, cursor, 0, []);
    var (out, next) := FindPage(codec, l, wallet, cursor).value;
    assert [] + NewestFirst(codec, Records(l, cursor), wallet) == NewestFirst(codec, Records(l, cursor), wallet);
    if next == 0 {
      NothingBefore(codec, wallet);
      assert out + [] == out;
    } else {
      PagesFrom(codec, l, wallet, next);
    }
  }

  lemma NothingBefore(codec: Codec, wallet: Id)
    ensures NewestFirst(codec, [], wallet) == []
  {
  }

  /** Paging from the tip until the cursor returns to 0 yields every record of the wallet exactly once, newest first,
      despite the limits of blocks and records per page. */
  lemma PagesCoverHistory(codec: Codec, l: Ledger, wallet: Id)
    requires l.start == 0 && l.nodes != []
    ensures FindPage(codec, l, wallet, 0) == FindPage(codec, l, wallet, l.Next())
    ensures AllPages(codec, l, wallet, l.Next()) == NewestFirst(codec, Records(l, |l.nodes|), wallet)
  {
    PagesFrom(codec, l, wallet, l.Next());
  }

  /** The ledger of every run counts its transactions, so searching it by index finds the flat list's records. */
  lemma RunsAreCounted(codec: Codec, st: ChainSpec.ChainState, events: seq<Runs.Event>)
    requires Runs.BaseInvariant(st) && Runs.Accepted(codec, st, events)
    ensures Counted(Runs.Run(codec, st, events).0.ledger)
  {
    hide Runs.Accepted, Runs.Run;
    Runs.BaseHolds(codec, st, events);
    LinkedIsCounted(Runs.Run(codec, st, events).0.ledger);
  }

  lemma LinkedIsCounted(l: Ledger)
    requires Runs.Linked(l) && l.start == 0
    ensures Counted(l)
  {
    forall i | 0 < i < |l.nodes|
      ensures l.nodes[i].block.txIndex == l.nodes[i - 1].block.txIndex + |l.nodes[i - 1].block.records|
    {
      assert l.Has(i) && l.At(i).txIndex == l.At(i - 1).txIndex + |l.At(i - 1).records|;
    }
  }
}
