/** No transaction is lost: what a miner has taken is in a block, still pending, waiting to be forwarded, or handed on. */
module Forwarding {
  import opened Numbers
  import opened Outcomes
  import opened ChainTypes
  import opened Mining
  import opened SpentRecords

  lemma PreparingKeepsLists(v: View, m: MinerState, isLeader: bool, signed: Option<seq<Record>>)
    ensures PrepareSlot(v, m, isLeader, signed).0.pending == m.pending && PrepareSlot(v, m, isLeader, signed).0.forward == m.forward
  {
    hide AddBuffers;
  }

  /** A miner with its slot prepared cuts a block. */
  lemma CuttingLosesNothing(v: View, m: MinerState, productionTime: bool, timestamp: int, maxTx: nat)
    requires var r := Production(v, m, productionTime, timestamp, maxTx); r.Ok? && r.value.Some?
    ensures var records := Production(v, m, productionTime, timestamp, maxTx).value.value.block.records; var after := AfterProduction(m, maxTx);
      && m.forward <= after.forward && after.pending == [] && after.cache == m.cache
      && records + after.forward[|m.forward|..] == m.cache.renewals + m.pending
      && m.cache.renewals <= records
      && (maxTx > 0 && |records| > maxTx ==> records == m.cache.renewals)
      && (after.forward != m.forward ==> 0 < maxTx <= |records|)
  {
    var n := TransactionSet(m, maxTx).1;
    assert m.pending[..n] + m.pending[n..] == m.pending;
    assert (m.forward + m.pending[n..])[|m.forward|..] == m.pending[n..];
    assert m.forward + [] == m.forward && m.cache.renewals + [] == m.cache.renewals;
  }

  /** A block holds the renewals of the slot and the first of the pending transactions; the others follow what was waiting to be
      forwarded. Without a block nothing moves. */
  lemma NothingLost(v: View, m: MinerState, isLeader: bool, signed: Option<seq<Record>>, productionTime: bool, timestamp: int, maxTx: nat)
    ensures var (after, r) := TryBlock(v, m, isLeader, signed, productionTime, timestamp, maxTx);
      if r.Ok? && r.value.Some? then
        && m.forward <= after.forward && after.pending == []
        && r.value.value.block.records + after.forward[|m.forward|..] == after.cache.renewals + m.pending
      else after.pending == m.pending && after.forward == m.forward
  {
    hide PrepareSlot, Production, AfterProduction;
    PreparingKeepsLists(v, m, isLeader, signed);
    var ready := if m.cache.slot == v.slot then m else PrepareSlot(v, m, isLeader, signed).0;
    var r := Production(v, ready, productionTime, timestamp, maxTx);
    if r.Ok? && r.value.Some? {
      CuttingLosesNothing(v, ready, productionTime, timestamp, maxTx);
    }
  }

  /** The block takes as many of the pending transactions as the limit leaves room for behind the renewals, and only then are any
      forwarded. */
  lemma BlockTakesWhatFits(v: View, m: MinerState, isLeader: bool, signed: Option<seq<Record>>, timestamp: int, maxTx: nat)
    requires var r := TryBlock(v, m, isLeader, signed, true, timestamp, maxTx).1; r.Ok? && r.value.Some?
    ensures var (after, r) := TryBlock(v, m, isLeader, signed, true, timestamp, maxTx); var records := r.value.value.block.records;
      && after.cache.renewals <= records
      && (maxTx > 0 && |records| > maxTx ==> records == after.cache.renewals)
      && (after.forward != m.forward ==> 0 < maxTx <= |records|)
  {
    hide PrepareSlot, Production, AfterProduction;
    PreparingKeepsLists(v, m, isLeader, signed);
    var ready := if m.cache.slot == v.slot then m else PrepareSlot(v, m, isLeader, signed).0;
    CuttingLosesNothing(v, ready, true, timestamp, maxTx);
  }

  // ----- in the course of time -----

  /** What a miner is asked to do: to act, to keep a transaction for forwarding, and to hand on what it keeps. */
  datatype Deed = Do(act: Act) | Keep(rec: Record) | Drain

  /** The transactions that came in, those put into blocks behind the renewals, and those handed on. */
  datatype Books = Books(taken: seq<Record>, mined: seq<Record>, drained: seq<Record>)

  function Perform(m: MinerState, books: Books, d: Deed): (MinerState, Books) {
    match d
    case Keep(rec) => (m.(forward := m.forward + [rec]), books.(taken := books.taken + [rec]))
    case Drain => (m.(forward := []), books.(drained := books.drained + m.forward))
    case Do(a) =>
      match a
      case Note(_) => (After(m, a), books)
      case Take(v, rec) => (After(m, a), if AddTransaction(v, m, rec).1.Done? then books.(taken := books.taken + [rec]) else books)
      case Try(_, _, _, _, _, _) =>
        var (after, r) := Tried(m, a);
        if r.Ok? && r.value.Some? && |after.cache.renewals| <= |r.value.value.block.records|
        then (after, books.(mined := books.mined + r.value.value.block.records[|after.cache.renewals|..]))
        else (after, books)
  }

  function PerformAll(m: MinerState, books: Books, deeds: seq<Deed>): (MinerState, Books)
    decreases |deeds|
  {
    if deeds == [] then (m, books)
    else
      var (next, kept) := Perform(m, books, deeds[0]);
      PerformAll(next, kept, deeds[1..])
  }

  /** Where transactions may be. */
  function Whereabouts(m: MinerState, books: Books): multiset<Record> {
    multiset(books.mined) + multiset(m.pending) + multiset(m.forward) + multiset(books.drained)
  }

  lemma TriedBlock(m: MinerState, a: Act)
    requires a.Try? && Tried(m, a).1.Ok? && Tried(m, a).1.value.Some?
    ensures var (after, r) := Tried(m, a); var records := r.value.value.block.records;
      && |after.cache.renewals| <= |records| && after.pending == [] && m.forward <= after.forward
      && records[|after.cache.renewals|..] + after.forward[|m.forward|..] == m.pending
  {
    hide TryBlock;
    NothingLost(a.v, m, a.isLeader, a.signed, a.productionTime, a.timestamp, a.maxTx);
    StartsWithRenewals(m, a);
    var (after, r) := Tried(m, a);
    var all := r.value.value.block.records + after.forward[|m.forward|..];
    assert all[|after.cache.renewals|..] == r.value.value.block.records[|after.cache.renewals|..] + after.forward[|m.forward|..];
    assert (after.cache.renewals + m.pending)[|after.cache.renewals|..] == m.pending;
  }

  lemma StartsWithRenewals(m: MinerState, a: Act)
    requires a.Try? && Tried(m, a).1.Ok? && Tried(m, a).1.value.Some?
    ensures Tried(m, a).0.cache.renewals <= Tried(m, a).1.value.value.block.records
  {
    hide PrepareSlot, Production, AfterProduction;
    var ready := if m.cache.slot == a.v.slot then m else PrepareSlot(a.v, m, a.isLeader, a.signed).0;
    CuttingLosesNothing(a.v, ready, a.productionTime, a.timestamp, a.maxTx);
  }

  lemma TakeKeepsAll(m: MinerState, books: Books, a: Act)
    requires !a.Try?
    ensures var (next, kept) := Perform(m, books, Do(a));
      && books.taken <= kept.taken
      && Whereabouts(next, kept) == Whereabouts(m, books) + multiset(kept.taken[|books.taken|..])
  {
    hide AddBuffer;
    var kept := Perform(m, books, Do(a)).1;
    assert kept.taken[|books.taken|..] == if |kept.taken| > |books.taken| then [kept.taken[|books.taken|]] else [];
  }

  lemma KeepKeepsAll(m: MinerState, books: Books, rec: Record)
    ensures var (next, kept) := Perform(m, books, Keep(rec)); Whereabouts(next, kept) == Whereabouts(m, books) + multiset{rec}
  {
  }

  lemma DrainKeepsAll(m: MinerState, books: Books)
    ensures var (next, kept) := Perform(m, books, Drain); kept.taken == books.taken && Whereabouts(next, kept) == Whereabouts(m, books)
  {
  }

  lemma TryKeepsAll(m: MinerState, books: Books, a: Act)
    requires a.Try?
    ensures var (next, kept) := Perform(m, books, Do(a)); kept.taken == books.taken && Whereabouts(next, kept) == Whereabouts(m, books)
  {
    hide Tried;
    var (after, r) := Tried(m, a);
    if r.Ok? && r.value.Some? {
      TriedBlock(m, a);
      var put, left := r.value.value.block.records[|after.cache.renewals|..], after.forward[|m.forward|..];
      assert after.forward == m.forward + left;
      assert multiset(m.pending) == multiset(put) + multiset(left);
      assert multiset(after.forward) == multiset(m.forward) + multiset(left);
    } else {
      NoBlockMovesNothing(m, a);
    }
  }

  /** Each deed keeps track of every transaction, and of the one it takes in, if any. */
  lemma DeedKeepsAll(m: MinerState, books: Books, d: Deed)
    ensures var (next, kept) := Perform(m, books, d);
      && books.taken <= kept.taken
      && Whereabouts(next, kept) == Whereabouts(m, books) + multiset(kept.taken[|books.taken|..])
  {
    hide Whereabouts;
    match d {
      case Keep(rec) =>
        KeepKeepsAll(m, books, rec);
        assert (books.taken + [rec])[|books.taken|..] == [rec];
      case Drain =>
        DrainKeepsAll(m, books);
        assert books.taken[|books.taken|..] == [];
      case Do(a) =>
        hide Perform;
        if a.Try? {
          TryKeepsAll(m, books, a);
          assert books.taken[|books.taken|..] == [];
        } else {
          TakeKeepsAll(m, books, a);
        }
    }
  }

  lemma NoBlockMovesNothing(m: MinerState, a: Act)
    requires a.Try? && !(Tried(m, a).1.Ok? && Tried(m, a).1.value.Some?)
    ensures Tried(m, a).0.pending == m.pending && Tried(m, a).0.forward == m.forward
  {
    hide TryBlock;
    NothingLost(a.v, m, a.isLeader, a.signed, a.productionTime, a.timestamp, a.maxTx);
  }

  /** Over every course of events, each transaction that was taken or kept is in exactly one place, as often as it came in: in a block
      behind the renewals, pending, waiting to be forwarded, or handed on. */
  lemma {:induction false} EveryTransactionIsSomewhere(m: MinerState, books: Books, deeds: seq<Deed>)
    requires Whereabouts(m, books) == multiset(books.taken)
    ensures var (last, kept) := PerformAll(m, books, deeds); Whereabouts(last, kept) == multiset(kept.taken)
    decreases |deeds|
  {
    hide Perform, Whereabouts;
    if deeds != [] {
      var (next, kept) := Perform(m, books, deeds[0]);
      DeedKeepsAll(m, books, deeds[0]);
      assert kept.taken == books.taken + kept.taken[|books.taken|..];
      EveryTransactionIsSomewhere(next, kept, deeds[1..]);
    }
  }
}
