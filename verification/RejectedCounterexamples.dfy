/** What does not hold after rejected blocks, on the small chain: a payment that has taken effect without its block, a stamp that no
    block bears out, and a genesis block that is turned down after it has configured the chain. */
module RejectedCounterexamples {
  import opened Numbers
  import opened Outcomes
  import opened ChainTypes
  import opened Bank
  import opened LedgerView
  import opened TxFees
  import opened TxHandlers
  import opened TxIdempotency
  import opened BlockValidation
  import opened ChainSpec
  import opened ChainCodec
  import opened BinaryCodec
  import opened Runs
  import opened Renewals
  import opened RejectedBlocks
  import opened SmallChain
  import opened SmallRenewals
  import Ouroboros

  // ----- a payment without its block -----

  /** A payment of 5 with an idempotency key, and a payment by nobody. */
  const PAY := TxDefault(ID_GENESIS, ID_RESERVE, ID_FEE, 5, 0, [], Window(7, 5, 10))
  const STRAY := TxDefault(ID_GENESIS, ID_FIRST_USER, ID_FEE, 0, 0, [], NEVER)

  lemma PaymentsRead()
    ensures Program().decode(Sealed(PAY)) == Some(PAY) && Program().decode(Sealed(STRAY)) == Some(STRAY)
  {
    hide Binary, Sealed;
    SealedReads(PAY);
    SealedReads(STRAY);
  }

  /** The accounts of the genesis block when the reserve has given `n` to the fee account. */
  function Given(n: nat): (ns: map<Id, int>)
    ensures ID_RESERVE in ns && ID_FIRST_USER !in ns
  {
    map[ID_GENESIS := -INITIAL_TOKEN_SUPPLY, ID_FEE := n, ID_RESERVE := INITIAL_TOKEN_SUPPLY - n, ID_RECYCLE := 0]
  }

  lemma PayMoves(n: nat, at: map<Id, nat>)
    requires n <= 100
    ensures Transfer(Stamped(Given(n), at), ID_RESERVE, ID_FEE, ID_GENESIS, 5, 0) == (Stamped(Given(n + 5), at), Done)
  {
    hide Stamped, Transfer;
    assert Given(n)[ID_RESERVE := Given(n)[ID_RESERVE] - 5][ID_FEE := Given(n)[ID_FEE] + 5] == Given(n + 5);
    StampedMoves(Given(n), at, 5);
  }

  lemma StampedMoves(ns: map<Id, int>, at: map<Id, nat>, amount: nat)
    requires ID_RESERVE in ns && ID_FEE in ns && amount <= ns[ID_RESERVE] <= INITIAL_TOKEN_SUPPLY && 0 <= ns[ID_FEE] <= INITIAL_TOKEN_SUPPLY
    ensures Transfer(Stamped(ns, at), ID_RESERVE, ID_FEE, ID_GENESIS, amount, 0)
         == (Stamped(ns[ID_RESERVE := ns[ID_RESERVE] - amount][ID_FEE := ns[ID_FEE] + amount], at), Done)
  {
    hide Stamped;
    var b := Stamped(ns, at);
    StampedAt(ns, at, ID_RESERVE);
    StampedAt(ns, at, ID_FEE);
    PurseSet(b[ID_RESERVE], ns[ID_RESERVE] - amount);
    PurseSet(b[ID_FEE], ns[ID_FEE] + amount);
    StampedTwo(ns, at, amount);
  }

  lemma StampedTwo(ns: map<Id, int>, at: map<Id, nat>, amount: nat)
    requires ID_RESERVE in ns && ID_FEE in ns
    ensures var b := Stamped(ns, at);
      Stamped(ns[ID_RESERVE := ns[ID_RESERVE] - amount][ID_FEE := ns[ID_FEE] + amount], at)
        == b[ID_RESERVE := b[ID_RESERVE].(wallet := Purse(ns[ID_RESERVE] - amount))][ID_FEE := b[ID_FEE].(wallet := Purse(ns[ID_FEE] + amount))]
  {
  }

  /** Behind the genesis block, in the state that payments without a block may have led to. */
  ghost predicate After(st: ChainState, n: nat) {
    && st.ledger == Started(FREE).ledger && st.checkpoint == Started(FREE).checkpoint
    && st.world == Started(FREE).world.(accounts := Stamped(Given(n), map[]))
  }

  lemma StartIsAfter()
    ensures After(Started(FREE), 0) && Live(Started(FREE)) && Started(FREE).world.config == Some(FREE.Config())
    ensures Started(FREE).world.consensus.schedule == FREE.Slots() && Started(FREE).ledger.nodes != []
    ensures Started(FREE).ledger.Next() == 1 && Started(FREE).ledger.nodes[|Started(FREE).ledger.nodes| - 1].block.slot == 0
  {
    hide Binary, Sealed, Purses, Stamped, Live;
    StartedIsLive(FREE);
    assert Opened(FREE) == Given(0);
    PursesAreStamped(Given(0));
    LiveIsBased(Started(FREE));
  }

  lemma AfterIsLive(st: ChainState, n: nat)
    requires After(st, n)
    ensures Live(st) && st.world.config == Some(FREE.Config()) && st.world.consensus.schedule == FREE.Slots() && st.ledger.nodes != []
    ensures st.ledger.Next() == 1 && st.ledger.nodes[|st.ledger.nodes| - 1].block.slot == 0
  {
    hide Binary, Sealed, Started, Stamped, Linked, Orderly;
    StartIsAfter();
  }

  lemma PayInTime(cx: Context)
    requires cx.config == Some(FREE.Config()) && cx.schedule == FREE.Slots()
    ensures Idempotency(cx, ID_RESERVE, PAY.window, 5, true).Done?
  {
  }

  lemma StampedKeys(tx: TypedTx, ns: map<Id, int>, at: map<Id, nat>)
    requires TxFits(tx) && |tx.meta| <= 1000 && SignerOf(tx, ID_RESERVE) in ns
    ensures ValidateTxSignatures(Program(), Stamped(ns, at), Sealed(tx), ID_RESERVE, true).Done?
  {
    hide Binary, Sealed, TxFits, Stamped;
    StampedAt(ns, at, SignerOf(tx, ID_RESERVE));
    SealedIsSigned(tx, Stamped(ns, at), ID_RESERVE, ns[SignerOf(tx, ID_RESERVE)]);
  }

  lemma PayProcessed(l: Ledger, w: World, n: nat, at: map<Id, nat>, block: Block)
    requires w.accounts == Stamped(Given(n), at) && w.config == Some(FREE.Config()) && w.consensus.schedule == FREE.Slots() && n <= 100
    requires block.slotLeader == ID_RESERVE && block.slot == 5
    ensures ProcessRecord(Program(), l, w, Sealed(PAY), block, true) == (w.(accounts := Stamped(Given(n + 5), at)), Done)
  {
    hide Binary, Sealed, Stamped, Transfer, CheckFee, Idempotency, ValidateTxSignatures;
    var cx := ContextOf(Program(), l, w);
    PaymentsRead();
    PayInTime(cx);
    StampedKeys(PAY, Given(n), at);
    FeeMet(FREE, cx, PAY);
    PayMoves(n, at);
  }

  lemma StrayFails(l: Ledger, w: World, ns: map<Id, int>, at: map<Id, nat>, block: Block)
    requires w.accounts == Stamped(ns, at) && ID_RESERVE in ns && ID_FIRST_USER !in ns
    ensures ProcessRecord(Program(), l, w, Sealed(STRAY), block, true) == (w, Failed(AccountNotFound))
  {
    hide Binary, Sealed;
    PaymentsRead();
    SealedReads(STRAY);
    StampedAt(ns, at, ID_RESERVE);
  }

  lemma PaymentsAllowed(b: Accounts)
    ensures RenewalsComplete(Program(), b, 0, [Sealed(PAY), Sealed(STRAY)]) && KeysDistinct(Program(), [Sealed(PAY), Sealed(STRAY)])
    ensures RenewalsComplete(Program(), b, 0, [Sealed(PAY)]) && KeysDistinct(Program(), [Sealed(PAY)])
    ensures KeyOf(Program(), Sealed(PAY)).Some?
  {
    hide Binary, Sealed;
    PaymentsRead();
  }

  lemma NoDeadline(st: ChainState, now: int)
    requires st.ledger.Next() == 1 && st.world.config == Some(FREE.Config())
    ensures MaxBlockIdForRenewal(st.ledger, st.world.config, st.checkpoint, st.ledger.Next(), now) == Ok(0)
  {
  }

  /** A failing record behind others. */
  lemma SecondFails(l: Ledger, w: World, block: Block)
    requires |block.records| == 2 && ProcessRecord(Program(), l, w, block.records[0], block, true).1.Done?
    requires var next := ProcessRecord(Program(), l, w, block.records[0], block, true).0;
      ProcessRecord(Program(), l, next, block.records[1], block, true) == (next, Failed(AccountNotFound))
    ensures ProcessRecords(Program(), l, w, block, 0, true)
         == (ProcessRecord(Program(), l, w, block.records[0], block, true).0, Failed(AccountNotFound))
  {
    hide ProcessRecord;
  }

  /** A block of the payment and of one by nobody is rejected, and the payment stays made. */
  lemma RejectedPays(st: ChainState, n: nat)
    requires After(st, n) && n <= 100
    ensures st.ledger.nodes != []
    ensures var node := Follow(st, 5, [Sealed(PAY), Sealed(STRAY)]); var (next, s) := AddBlock(Program(), st, node, 5);
      s.Failed? && After(next, n + 5)
  {
    hide Binary, Sealed, Started, Stamped, AddBlock, ProcessRecord, ProcessRecords, RenewalsComplete, KeysDistinct, Live, MaxBlockIdForRenewal;
    AfterIsLive(st, n);
    NoDeadline(st, 5);
    PaymentsAllowed(st.world.accounts);
    var block := Follow(st, 5, [Sealed(PAY), Sealed(STRAY)]).block;
    PayProcessed(st.ledger, st.world, n, map[], block);
    StrayFails(st.ledger, st.world.(accounts := Stamped(Given(n + 5), map[])), Given(n + 5), map[], block);
    SecondFails(st.ledger, st.world, block);
    FollowOffered(st, 5, [Sealed(PAY), Sealed(STRAY)], 5, 0);
    assert AddBlock(Program(), st, Follow(st, 5, [Sealed(PAY), Sealed(STRAY)]), 5).0.world == st.world.(accounts := Stamped(Given(n + 5), map[]));
  }

  lemma AcceptedPays(st: ChainState, n: nat)
    requires After(st, n) && n <= 100
    ensures st.ledger.nodes != []
    ensures var node := Follow(st, 5, [Sealed(PAY)]); var (next, s) := AddBlock(Program(), st, node, 5);
      && s.Done? && AtTip(st, node) && next.ledger == Appended(st.ledger, node)
      && next.world.accounts == Stamped(Given(n + 5), map[])
  {
    hide Binary, Sealed, Started, Stamped, AddBlock, ProcessRecord, ProcessRecords, RenewalsComplete, KeysDistinct, Live, MaxBlockIdForRenewal;
    AfterIsLive(st, n);
    NoDeadline(st, 5);
    PaymentsAllowed(st.world.accounts);
    var block := Follow(st, 5, [Sealed(PAY)]).block;
    PayProcessed(st.ledger, st.world, n, map[], block);
    NextRecord(Program(), st.ledger, st.world, block, 0);
    NoMoreRecords(st.ledger, st.world.(accounts := Stamped(Given(n + 5), map[])), block);
    FollowAccepted(st, 5, [Sealed(PAY)], 5, 0);
  }

  lemma GivenHolds(n: nat)
    ensures BalanceOf(Stamped(Given(n), map[]), ID_RESERVE, ID_GENESIS) == INITIAL_TOKEN_SUPPLY - n
  {
  }

  /** A block with a payment that has an idempotency key is offered twice and rejected twice, for its second record; then a block
      with the payment alone is accepted. The payment stands on the ledger once and has been made three times. */
  lemma RejectedPaymentRepeats() returns (bad: ChainNode, good: ChainNode, once: ChainState, twice: ChainState, last: ChainState)
    ensures BaseInvariant(Started(FREE)) && bad.block.index == Started(FREE).ledger.Next()
    ensures bad.block.records == [Sealed(PAY), Sealed(STRAY)] && good.block.records == [Sealed(PAY)]
    ensures Program().decode(Sealed(PAY)) == Some(PAY) && KeyOf(Program(), Sealed(PAY)).Some?
    ensures AddBlock(Program(), Started(FREE), bad, 5).0 == once && AddBlock(Program(), Started(FREE), bad, 5).1.Failed?
    ensures AddBlock(Program(), once, bad, 5).0 == twice && AddBlock(Program(), once, bad, 5).1.Failed?
    ensures AddBlock(Program(), twice, good, 5) == (last, Done) && AtTip(twice, good)
    ensures last.ledger == Appended(Started(FREE).ledger, good)
    ensures BalanceOf(last.world.accounts, ID_RESERVE, ID_GENESIS) == BalanceOf(Started(FREE).world.accounts, ID_RESERVE, ID_GENESIS) - 15
  {
    hide Binary, Sealed, Started, Stamped, AddBlock, Live, Linked, Orderly;
    StartIsAfter();
    LiveIsBased(Started(FREE));
    PaymentsRead();
    PaymentsAllowed(map[]);
    TipNumber(Started(FREE).ledger);
    bad := Follow(Started(FREE), 5, [Sealed(PAY), Sealed(STRAY)]);
    RejectedPays(Started(FREE), 0);
    once := AddBlock(Program(), Started(FREE), bad, 5).0;
    RejectedPays(once, 5);
    twice := AddBlock(Program(), once, bad, 5).0;
    AcceptedPays(twice, 10);
    good := Follow(twice, 5, [Sealed(PAY)]);
    last := AddBlock(Program(), twice, good, 5).0;
    GivenHolds(0);
    GivenHolds(15);
  }

  // ----- a stamp without its block -----

  /** The reserve's renewal. */
  function Fresh(): TypedTx {
    Renewing(FREE, ID_RESERVE, INITIAL_TOKEN_SUPPLY)
  }

  lemma FreshReads()
    ensures Program().decode(Sealed(Fresh())) == Some(Fresh()) && Fresh().TxRenewal? && Fresh().walletId == ID_RESERVE
    ensures TxFits(Fresh()) && |Fresh().meta| <= 1000
  {
    hide Binary, Sealed, Renewing, TxFits;
    RenewingReads(FREE, ID_RESERVE, INITIAL_TOKEN_SUPPLY);
    SealedReads(Fresh());
  }

  lemma FreshProcessed(l: Ledger, w: World, block: Block)
    requires w.accounts == Stamped(Given(0), map[]) && w.config == Some(FREE.Config()) && block.slotLeader == ID_RESERVE && block.index == 1
    ensures ProcessRecord(Program(), l, w, Sealed(Fresh()), block, true)
         == (w.(accounts := Stamped(Given(0), map[ID_RESERVE := 1])), Done)
  {
    hide Binary, Sealed, Stamped, Renewing, Fresh, Handle, TxFits, ValidateTxSignatures;
    FreshReads();
    StampedKeys(Fresh(), Given(0), map[]);
    FreshHandled(ContextOf(Program(), l, w));
  }

  lemma FreshHandled(cx: Context)
    requires cx.codec == Program() && cx.config == Some(FREE.Config())
    ensures Handle(cx, Fresh(), Stamped(Given(0), map[]), map[], 1, true) == (Stamped(Given(0), map[ID_RESERVE := 1]), Done)
  {
    hide Binary, Stamped, Renewing, Handle;
    RenewingHandled(FREE, cx, Given(0), map[], ID_RESERVE, map[], 1);
    assert Given(0)[ID_RESERVE := INITIAL_TOKEN_SUPPLY][ID_FEE := 0] == Given(0);
  }

  lemma FreshAllowed()
    ensures RenewalsComplete(Program(), Stamped(Given(0), map[]), 0, [Sealed(Fresh()), Sealed(STRAY)])
    ensures KeysDistinct(Program(), [Sealed(Fresh()), Sealed(STRAY)])
  {
    hide Binary, Sealed, Renewing, Stamped, Fresh;
    PaymentsRead();
    FreshReads();
    StampedAt(Given(0), map[], ID_RESERVE);
  }

  lemma NothingMore(b: Accounts)
    ensures RenewalsComplete(Program(), b, 0, []) && KeysDistinct(Program(), [])
  {
  }

  /** No metadata in an empty block. */
  lemma NoRenewal(cx: Context, b: Accounts)
    requires cx.codec == Program() && cx.config.Some? && cx.ledger.start == 0 && |cx.ledger.nodes| == 2
    requires cx.ledger.nodes[1].block.records == []
    requires ID_RESERVE in b && b[ID_RESERVE].blockId == 1
    ensures CreateRenewal(cx, b, ID_RESERVE).Err?
  {
    hide Binary;
    assert UserAccountFromBlock(cx.codec, cx.ledger.nodes[1].block, ID_RESERVE).Err?;
  }

  /** A block with the reserve's renewal is rejected for its second record, and leaves the reserve set by a block that does not
      exist. When an empty block takes that number, the reserve's next renewal cannot be made. */
  lemma StampWithoutBlock() returns (bad: ChainNode, empty: ChainNode, left: ChainState, last: ChainState)
    ensures BaseInvariant(Started(FREE)) && bad.block.index == Started(FREE).ledger.Next() && bad.block.records == [Sealed(Fresh()), Sealed(STRAY)]
    ensures Program().decode(Sealed(Fresh())) == Some(Fresh())
    ensures AddBlock(Program(), Started(FREE), bad, 1).0 == left && AddBlock(Program(), Started(FREE), bad, 1).1.Failed?
    ensures ID_RESERVE in left.world.accounts && left.world.accounts[ID_RESERVE].blockId == left.ledger.Next()
    ensures AtTip(left, empty) && empty.block.records == [] && AddBlock(Program(), left, empty, 1) == (last, Done)
    ensures CreateRenewal(ContextOf(Program(), last.ledger, last.world), last.world.accounts, ID_RESERVE).Err?
  {
    hide Binary, Sealed, Started, Stamped, AddBlock, Live, Linked, Orderly, ProcessRecord, ProcessRecords, RenewalsComplete, KeysDistinct,
      MaxBlockIdForRenewal, Fresh, CreateRenewal;
    var st := Started(FREE);
    StartIsAfter();
    LiveIsBased(st);
    TipNumber(st.ledger);
    FreshReads();
    bad := Follow(st, 1, [Sealed(Fresh()), Sealed(STRAY)]);
    left := FreshLeft();
    LiveIsBased(left);
    NoDeadline(left, 1);
    NothingMore(left.world.accounts);
    empty := Follow(left, 1, []);
    NoMoreRecords(left.ledger, left.world, empty.block);
    FollowAccepted(left, 1, [], 1, 0);
    last := AddBlock(Program(), left, empty, 1).0;
    StampedAt(Given(0), map[ID_RESERVE := 1], ID_RESERVE);
    NoRenewal(ContextOf(Program(), last.ledger, last.world), last.world.accounts);
  }

  lemma FreshLeft() returns (left: ChainState)
    ensures Started(FREE).ledger.nodes != []
    ensures AddBlock(Program(), Started(FREE), Follow(Started(FREE), 1, [Sealed(Fresh()), Sealed(STRAY)]), 1).0 == left
    ensures AddBlock(Program(), Started(FREE), Follow(Started(FREE), 1, [Sealed(Fresh()), Sealed(STRAY)]), 1).1.Failed?
    ensures Live(left) && left.ledger == Started(FREE).ledger && left.world.accounts == Stamped(Given(0), map[ID_RESERVE := 1])
    ensures left.world.config == Some(FREE.Config())
  {
    hide Binary, Sealed, Started, Stamped, AddBlock, Live, ProcessRecord, ProcessRecords, RenewalsComplete, KeysDistinct, MaxBlockIdForRenewal, Fresh;
    var st := Started(FREE);
    StartIsAfter();
    NoDeadline(st, 1);
    FreshAllowed();
    var records := [Sealed(Fresh()), Sealed(STRAY)];
    var block := Follow(st, 1, records).block;
    LiveIsBased(st);
    TipNumber(st.ledger);
    FreshProcessed(st.ledger, st.world, block);
    StrayFails(st.ledger, st.world.(accounts := Stamped(Given(0), map[ID_RESERVE := 1])), Given(0), map[ID_RESERVE := 1], block);
    SecondFails(st.ledger, st.world, block);
    FollowOffered(st, 1, records, 1, 0);
    left := AddBlock(Program(), st, Follow(st, 1, records), 1).0;
    assert left.world == st.world.(accounts := Stamped(Given(0), map[ID_RESERVE := 1]));
    StaysLive(st, left);
  }

  lemma StaysLive(st: ChainState, left: ChainState)
    requires Live(st) && left.ledger == st.ledger && left.checkpoint == st.checkpoint && left.world.consensus == st.world.consensus
    requires left.world.config == st.world.config
    ensures Live(left)
  {
    hide Linked, Orderly;
  }

  // ----- a genesis block on a running chain -----

  lemma FoundingStops(t: Terms, u: Terms, block: Block)
    requires t.Fair() && u.Fair() && block.index == 0 && block.slotLeader == 0 && block.slot == 0
    requires |block.records| == 4 && block.records[0] == Sealed(Founding(u))
    ensures var st := Started(t);
      ProcessRecords(Program(), st.ledger, st.world, block, 0, true)
        == (World(st.world.accounts, Some(u.Config()), Ouroboros.Consensus(u.Slots(), map[], None)), Failed(InternalBuffer))
  {
    hide Binary, Sealed, Purses, Started, Live, ValidateTxSignatures, Founding;
    StartedIsLive(t);
    FoundingReads(u);
    PurseAt(Opened(t), ID_GENESIS);
    FoundingFits(u);
    SealedIsSigned(Founding(u), Purses(Opened(t)), 0, Opened(t)[ID_GENESIS]);
  }

  lemma FoundingFits(u: Terms)
    requires u.Fair()
    ensures var tx := Founding(u); tx.TxGenesis? && tx.fee == 0 && TxFits(tx) && |tx.meta| <= 1000 && SignerOf(tx, 0) == ID_GENESIS
  {
    hide Binary, Sealed, TxFits;
    FoundingReads(u);
  }

  lemma GenesisOutcome(t: Terms, u: Terms, now: int)
    requires t.Fair() && u.Fair()
    ensures AddBlock(Program(), Started(t), Genesis(u), now) ==
      (Started(t).(world := World(Started(t).world.accounts, Some(u.Config()), Ouroboros.Consensus(u.Slots(), map[], None))),
       Failed(Error.BlockValidation))
  {
    hide Binary, Sealed, ProcessRecords, ValidateGenesisBlock, Started, Founding, Opening;
    GenesisIsValid(u);
    FoundingStops(t, u, Genesis(u).block);
  }

  /** A genesis block offered to a chain that is running: it is turned down, because there is a genesis account already. But its
      configuration and schedule are in force from then on, and no block is valid until the stakes have been refreshed. */
  lemma GenesisReconfigures(t: Terms, u: Terms, now: int)
    requires t.Fair() && u.Fair()
    ensures var (next, s) := AddBlock(Program(), Started(t), Genesis(u), now);
      && Live(Started(t)) && Started(t).world.config == Some(t.Config())
      && s.Failed? && next.ledger == Started(t).ledger && next.world.accounts == Started(t).world.accounts
      && next.world.config == Some(u.Config()) && next.world.consensus.schedule == u.Slots()
      && forall node: ChainNode, later: int | node.block.index > 0 :: ValidateBlock(Program(), next, node, true, later).Failed?
  {
    hide Binary, Sealed, Started, Live, AddBlock, Genesis, CheckSequence, MaxBlockIdForRenewal, RenewalsComplete, KeysDistinct, WithinLimit;
    StartedIsLive(t);
    GenesisOutcome(t, u, now);
  }
}
