/** A chain whose restart from block 0 depends on the clock: every block was accepted, and from some second on the node cannot
    load its own ledger any more. */
module RestartCounterexample {
  import opened Numbers
  import opened Outcomes
  import opened ChainTypes
  import opened Bank
  import opened LedgerView
  import opened TxIdempotency
  import opened BlockValidation
  import opened ChainSpec
  import opened Runs
  import opened LateJoiner
  import opened AtMostOnce
  import opened Reload
  import opened PackedSizes
  import opened BinaryCodec
  import opened SmallChain
  import Ouroboros

  /** No fees, no block limit, a minimum checkpoint age of ten seconds. */
  const TERMS := Terms(0, 0, 10, 1000)

  /** The blocks are as old as their numbers, and the accounts are those of the genesis block. */
  ghost predicate Aged(st: ChainState, n: nat) {
    && Live(st) && st.world.consensus.schedule == TERMS.Slots() && st.ledger.Next() == n && st.world.config == Some(TERMS.Config())
    && st.world.accounts == Purses(Opened(TERMS)) && st.world.consensus.lastUpdateEpoch == Some(0)
    && forall i | 0 <= i < n :: st.ledger.At(i).timestamp == i && st.ledger.At(i).slot == i && st.ledger.At(i).index == i
  }

  lemma StartedIsAged()
    ensures Aged(Started(TERMS), 1)
  {
    hide Live, Purses, Sealed, Binary;
    StartedIsLive(TERMS);
  }

  lemma NothingDueYet(st: ChainState, n: nat)
    requires Aged(st, n) && 0 < n < 10
    ensures MaxBlockIdForRenewal(st.ledger, st.world.config, st.checkpoint, n, n) == Ok(0)
    ensures st.ledger.nodes != [] && st.ledger.nodes[|st.ledger.nodes| - 1].block.slot == n - 1
  {
    hide Purses, Opened, Linked, Orderly, FindBlockByTimestamp;
    OrderlyTimestamps(st.ledger, TERMS.Slots());
    FindsFirst(st.ledger, n - 10);
    assert st.ledger.At(n - 1) == st.ledger.nodes[|st.ledger.nodes| - 1].block && st.ledger.At(0).timestamp == 0;
  }

  lemma EmptyBlockAccepted(st: ChainState, n: nat)
    requires Aged(st, n) && 0 < n < 10
    ensures AtTip(st, Follow(st, n, [])) && AddBlock(Program(), st, Follow(st, n, []), n).1.Done?
    ensures Aged(AddBlock(Program(), st, Follow(st, n, []), n).0, n + 1)
    ensures AddBlock(Program(), st, Follow(st, n, []), n).0.ledger == Appended(st.ledger, Follow(st, n, []))
    ensures Follow(st, n, []).block.index == n && Follow(st, n, []).block.records == [] && Follow(st, n, []).block.slot == n
  {
    hide AddBlock, Purses, Opened, Linked, Orderly, MaxBlockIdForRenewal, Binary;
    NothingDueYet(st, n);
    FollowAccepted(st, n, [], n, 0);
    OfferKeepsBase(Program(), st, Follow(st, n, []), n);
    var l := Appended(st.ledger, Follow(st, n, []));
    forall i: nat | i < n + 1
      ensures l.At(i).timestamp == i && l.At(i).slot == i && l.At(i).index == i
    {
      AppendedAt(st.ledger, Follow(st, n, []), i);
    }
  }

  /** An empty block demands nothing anew while the first block is young, and the accounts of the genesis block afterwards. */
  lemma EmptyBlockRenewsIff(st: ChainState, full: Ledger, block: Block, now: int)
    requires st.world.config == Some(TERMS.Config()) && st.world.accounts == Purses(Opened(TERMS))
    requires full.start == 0 && TimestampsIncrease(full) && |full.nodes| == 3 && block.index in {1, 2} && block.records == []
    requires forall i | 0 <= i < 3 :: full.At(i).timestamp == i && full.At(i).index == i
    ensures RenewsAnew(Program(), st.world, full, block, now) <==> block.index == 1 || now <= 10
  {
    hide Binary, Purses;
    FindsFirst(full, now - 10);
    PurseAt(Opened(TERMS), ID_RESERVE);
    if now <= 10 {
      assert full.Has(0);
    } else {
      assert full.At(0).timestamp == 0;
      assert ID_RESERVE in IdsBefore(st.world.accounts, 1);
    }
  }

  lemma AgedInStep(st: ChainState, n: nat, now: int)
    requires Aged(st, n) && 0 < n < 10
    ensures st.world.consensus.schedule.IsSet() && InStep(st, Offer(Follow(st, n, []), now))
  {
    hide Linked, Orderly, Purses, Opened;
  }

  /** Two empty blocks behind the genesis block, in seconds 1 and 2. */
  lemma History() returns (events: seq<Event>, one: ChainState, two: ChainState)
    ensures Aged(one, 2) && Aged(two, 3) && |events| == 3
    ensures events[0] == Refresh(0) && events[1].Offer? && events[2].Offer?
    ensures events[1].node.block.index == 1 && events[1].node.block.records == []
    ensures events[2].node.block.index == 2 && events[2].node.block.records == []
    ensures Accepted(Program(), Boot(TERMS), events) && InStepAlong(Program(), Boot(TERMS), events)
    ensures Run(Program(), Boot(TERMS), events[..1]).0 == Started(TERMS)
    ensures Run(Program(), Boot(TERMS), events[..2]).0 == one
    ensures Run(Program(), Boot(TERMS), events) == (two, Done)
  {
    hide AddBlock, Binary, Genesis, Purses, Opened, Live, Follow, AtTip, InStep;
    StartedIsAged();
    EmptyBlockAccepted(Started(TERMS), 1);
    AgedInStep(Started(TERMS), 1, 1);
    var first := Offer(Follow(Started(TERMS), 1, []), 1);
    one := AddBlock(Program(), Started(TERMS), first.node, 1).0;
    EmptyBlockAccepted(one, 2);
    AgedInStep(one, 2, 2);
    var second := Offer(Follow(one, 2, []), 2);
    two := AddBlock(Program(), one, second.node, 2).0;
    events := [Refresh(0), first, second];
    BootInStep();
    assert events[1..] == [first, second] && [first, second][1..] == [second] && [second][1..] == [];
    var codec, started := Program(), Started(TERMS);
    assert Accepted(codec, two, []) && InStepAlong(codec, two, []) && Run(codec, two, []) == (two, Done);
    assert Step(codec, one, second) == (two, Done) && Step(codec, started, first) == (one, Done);
    assert Accepted(codec, one, [second]) && InStepAlong(codec, one, [second]) && Run(codec, one, [second]) == (two, Done);
    assert Accepted(codec, started, [first, second]) && InStepAlong(codec, started, [first, second]);
    assert Run(codec, started, [first, second]) == (two, Done) && Run(codec, started, [first]) == (one, Done);
    assert events[..1] == [Refresh(0)] && [Refresh(0)][1..] == [];
    assert events[..2] == [Refresh(0), first] && [Refresh(0), first][1..] == [first] && [first][1..] == [];
  }

  lemma BootInStep()
    ensures Boot(TERMS).world.consensus.schedule.IsSet() && InStep(Boot(TERMS), Refresh(0))
  {
  }

  /** Up to second 10 the node restarts; from second 11 on it never does. */
  lemma RestartDependsOnClock() returns (events: seq<Event>, full: ChainState)
    ensures Booted(Program(), Boot(TERMS), BARE.world.consensus.schedule, Genesis(TERMS), 0)
    ensures Accepted(Program(), Boot(TERMS), events) && Run(Program(), Boot(TERMS), events) == (full, Done)
    ensures forall now :: LoadFromLedger(Program(), BARE.(ledger := full.ledger), 0, now).1.Done? <==> now <= 10
  {
    hide LoadFromLedger, AddBlock, Binary, Genesis, Purses, Opened, Run, Accepted, InStepAlong, Booted, Live, RenewsAnew, Started;
    var one;
    events, one, full := History();
    Boots(TERMS, 0);
    ProgramWindows();
    forall now
      ensures LoadFromLedger(Program(), BARE.(ledger := full.ledger), 0, now).1.Done? <==> now <= 10
    {
      RestartInStepIff(Program(), Boot(TERMS), BARE.world.consensus.schedule, Genesis(TERMS), 0, events, now);
      StartedIsAged();
      AgedLedger(full);
      EmptyBlockRenewsIff(Started(TERMS), full.ledger, events[1].node.block, now);
      EmptyBlockRenewsIff(one, full.ledger, events[2].node.block, now);
      if now <= 10 {
        forall k | 0 <= k < |events| && events[k].Offer?
          ensures RenewsAnew(Program(), Run(Program(), Boot(TERMS), events[..k]).0.world, full.ledger, events[k].node.block, now)
        {
          assert k == 1 || k == 2;
        }
      } else {
        assert !RenewsAnew(Program(), Run(Program(), Boot(TERMS), events[..2]).0.world, full.ledger, events[2].node.block, now);
      }
    }
  }

  lemma ProgramWindows()
    ensures WindowsAreInt64(Program())
  {
    hide Binary, WindowsAreInt64;
    BinaryWindows(bytes => bytes, (keyType, key, message, signature) => true, (stakes, slot, epoch) => ID_RESERVE);
  }

  lemma AgedLedger(st: ChainState)
    requires Aged(st, 3)
    ensures st.ledger.start == 0 && |st.ledger.nodes| == 3 && TimestampsIncrease(st.ledger)
  {
    OrderlyTimestamps(st.ledger, TERMS.Slots());
  }
}
