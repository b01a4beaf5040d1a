/** Inputs on the failing side of the chain's conditions, on a small chain run with the program's own codec: blocks that are
    accepted right after the genesis block, and what a producer collects or pools there. Each shows what then goes wrong. */
module ChainCounterexamples {
  import opened Numbers
  import opened Outcomes
  import opened ChainTypes
  import opened Bank
  import opened BankTotals
  import opened BalanceBounds
  import opened Conservation
  import opened LedgerView
  import opened TxFees
  import opened TxHandlers
  import opened TxIdempotency
  import opened BlockValidation
  import opened ChainSpec
  import opened ChainCodec
  import opened AccountCodec
  import opened BinaryCodec
  import opened PackedSizes
  import opened Archive
  import opened Runs
  import opened Anchoring
  import opened Renewals
  import opened RenewalAgreement
  import opened RenewalBlocks
  import opened Mining
  import opened Overlay
  import opened ProducedBlocks
  import opened SpentRecords
  import opened SmallChain
  import opened SmallRenewals
  import opened SyncGuards
  import LateJoiner
  import Ouroboros

  // ----- conservation -----

  /** The reserve pays 5 to itself; the chain accepts the block and holds 5 tokens more. */
  lemma SelfPaymentCreates() returns (node: ChainNode)
    ensures BaseInvariant(Started(FREE)) && AtTip(Started(FREE), node) && |node.block.records| == 1
    ensures Program().decode(node.block.records[0]) == Some(TxDefault(ID_GENESIS, ID_RESERVE, ID_RESERVE, 5, 0, [], NEVER))
    ensures var (next, s) := AddBlock(Program(), Started(FREE), node, 1);
      s.Done? && Total(next.world.accounts, ID_GENESIS) == Total(Started(FREE).world.accounts, ID_GENESIS) + 5
  {
    hide Binary, Sealed, AddBlock, Total, Started, Handle, MinFeeForTx, Linked, Orderly, Purses, Live;
    var tx := TxDefault(ID_GENESIS, ID_RESERVE, ID_RESERVE, 5, 0, [], NEVER);
    var b := Purses(Opened(FREE));
    var st := Started(FREE);
    StartedIsLive(FREE);
    LiveIsBased(st);
    var cx := ContextOf(Program(), st.ledger, st.world);
    FeeMet(FREE, cx, tx);
    PurseAt(Opened(FREE), ID_RESERVE);
    SelfPaymentHandled(cx, b, tx);
    OneRecordAccepted(FREE, tx);
    PlainReads(tx, b);
    RecordDrift(cx, tx, b, map[], 1, ID_GENESIS);
    node := Follow(st, 1, [Sealed(tx)]);
  }

  lemma SelfPaymentHandled(cx: Context, b: Accounts, tx: TypedTx)
    requires tx == TxDefault(ID_GENESIS, ID_RESERVE, ID_RESERVE, 5, 0, [], NEVER) && CheckFee(cx, tx).Done?
    requires ID_RESERVE in b && 5 <= BalanceOf(b, ID_RESERVE, ID_GENESIS) <= INITIAL_TOKEN_SUPPLY
    ensures Handle(cx, tx, b, map[], 1, true).1.Done?
  {
    hide CheckFee, MoveAmount;
  }

  /** The reserve owes 5 of its own token and has given its native tokens away; then it is ended. */
  const PROMISE := TxDefault(ID_RESERVE, ID_RESERVE, ID_RECYCLE, 5, 1, [], NEVER)
  const PARTING := TxDefault(ID_GENESIS, ID_RESERVE, ID_FEE, INITIAL_TOKEN_SUPPLY - 5, 1, [], NEVER)
  const ENDING := TxEndUser(ID_RESERVE, 0, [])

  lemma PromiseHandled(cx: Context, b: Accounts)
    requires CheckFee(cx, PROMISE).Done? && b == Purses(Opened(CHARGED))
    ensures var (after, s) := Handle(cx, PROMISE, b, map[], 1, true);
      && s.Done? && after.Keys == b.Keys && after == Transfer(b, ID_RESERVE, ID_RECYCLE, ID_RESERVE, 5, 1).0
      && BalanceOf(after, ID_RESERVE, ID_GENESIS) == INITIAL_TOKEN_SUPPLY - 4 && BalanceOf(after, ID_RESERVE, ID_RESERVE) == -5
      && BalanceOf(after, ID_FEE, ID_GENESIS) == 4
      && after[ID_RESERVE] == b[ID_RESERVE].(wallet := after[ID_RESERVE].wallet)
      && after[ID_RESERVE].wallet.(balances := map[]) == Purse(0).(balances := map[])
  {
    hide CheckFee, Purses;
    PurseAt(Opened(CHARGED), ID_RESERVE);
    PurseAt(Opened(CHARGED), ID_RECYCLE);
    PurseAt(Opened(CHARGED), ID_FEE);
    assert Transfer(b, ID_RESERVE, ID_RECYCLE, ID_RESERVE, 5, 1).1.Done?;
    LateJoiner.TransferPointwise(b, ID_RESERVE, ID_RECYCLE, ID_RESERVE, 5, 1);
  }

  lemma PartingHandled(cx: Context, b: Accounts)
    requires CheckFee(cx, PARTING).Done? && ID_RESERVE in b && ID_FEE in b && b[ID_RESERVE].id == ID_RESERVE
    requires BalanceOf(b, ID_RESERVE, ID_GENESIS) == INITIAL_TOKEN_SUPPLY - 4 && BalanceOf(b, ID_FEE, ID_GENESIS) == 4
    ensures var (after, s) := Handle(cx, PARTING, b, map[], 1, true);
      && s.Done? && after.Keys == b.Keys && BalanceOf(after, ID_RESERVE, ID_GENESIS) == 0
      && BalanceOf(after, ID_RESERVE, ID_RESERVE) == BalanceOf(b, ID_RESERVE, ID_RESERVE)
      && after[ID_RESERVE] == b[ID_RESERVE].(wallet := after[ID_RESERVE].wallet)
      && after[ID_RESERVE].wallet.(balances := map[]) == b[ID_RESERVE].wallet.(balances := map[])
  {
    hide CheckFee;
    assert Transfer(b, ID_RESERVE, ID_FEE, ID_GENESIS, INITIAL_TOKEN_SUPPLY - 5, 1).1.Done?;
    LateJoiner.TransferPointwise(b, ID_RESERVE, ID_FEE, ID_GENESIS, INITIAL_TOKEN_SUPPLY - 5, 1);
  }

  // ----- balances -----

  /** A user update of the recycle account, which holds nothing, with a payload of -1: the chain accepts the block and the
      account owes 1. */
  lemma UpdateGoesBelowZero() returns (node: ChainNode)
    ensures BaseInvariant(Started(FREE)) && AtTip(Started(FREE), node) && |node.block.records| == 1
    ensures Program().decode(node.block.records[0]) == Some(TxUserUpdate(ID_RECYCLE, 1, Payload(-1), NEVER))
    ensures var (next, s) := AddBlock(Program(), Started(FREE), node, 1);
      s.Done? && BalanceOf(next.world.accounts, ID_RECYCLE, ID_GENESIS) == -1 && !Bounded(next.world.accounts)
  {
    hide Binary, Sealed, Payload, AddBlock, Started, Handle, Linked, Orderly, Bounded, Purses, Live, CheckFee, VerifyBalance;
    var tx := TxUserUpdate(ID_RECYCLE, 1, Payload(-1), NEVER);
    var b := Purses(Opened(FREE));
    var st := Started(FREE);
    StartedIsLive(FREE);
    LiveIsBased(st);
    PayloadReads(-1);
    var cx := ContextOf(Program(), st.ledger, st.world);
    FeeMet(FREE, cx, tx);
    PurseAt(Opened(FREE), ID_RECYCLE);
    PurseAt(Opened(FREE), ID_FEE);
    PurseVerifies(b, ID_RECYCLE, 0, 1, Purse(-1).balances);
    UpdateHandled(cx, b, tx, UserAccount(Purse(-1), []));
    OneRecordAccepted(FREE, tx);
    PlainReads(tx, b);
    node := Follow(st, 1, [Sealed(tx)]);
    var after := AddBlock(Program(), st, node, 1).0.world.accounts;
    if Bounded(after) {
      BoundedAt(after, ID_RECYCLE, ID_GENESIS);
    }
  }

  /** A user update whose payload verifies is carried out. */
  lemma UpdateHandled(cx: Context, b: Accounts, tx: TypedTx, account: UserAccount)
    requires tx.TxUserUpdate? && CheckFee(cx, TxUserUpdate(tx.walletId, tx.fee, tx.meta, NEVER)).Done?
    requires cx.codec.userAccountOf(tx.meta) == Some(account) && CheckWallet(account.wallet).Done?
    requires tx.walletId in b && VerifyBalance(b, tx.walletId, 0, tx.fee, account.wallet.balances).Done?
    requires tx.fee <= 1 && tx.walletId != ID_FEE && ID_FEE in b && BalanceOf(b, ID_FEE, ID_GENESIS) <= INITIAL_TOKEN_SUPPLY
    ensures var (after, s) := Handle(cx, tx, b, map[], 1, true);
      s.Done? && tx.walletId in after && after[tx.walletId].wallet == account.wallet
  {
    hide CheckFee, VerifyBalance, CheckWallet;
  }

  // ----- the genesis account -----

  /** A genesis wallet with one key and one signature. */
  const WEAK := UserAccount(Wallet(map[ID_GENESIS := -INITIAL_TOKEN_SUPPLY], [[]], 1, TK_ED25519), [])

  function Weakening(): TypedTx {
    TxUserUpdate(ID_GENESIS, 0, Program().packUserAccount(WEAK), NEVER)
  }

  lemma WeakReads()
    ensures Program().userAccountOf(Weakening().meta) == Some(WEAK) && |Weakening().meta| <= 100
  {
    hide UserAccountFits, UserAccountBytes, UserAccountFromBytes, UserAccountSmall;
    WeakFits();
    UserAccountRoundTrip(WEAK);
    UserAccountLength(WEAK);
    var keys: seq<Bytes> := [[]];
    assert keys[1..] == [] && KeysLength(keys) == 8;
    assert |WEAK.wallet.balances| == 1;
  }

  lemma WeakIsUpdate()
    ensures Weakening().TxUserUpdate? && Weakening().walletId == ID_GENESIS && Weakening().fee == 0 && Weakening().window == NEVER
    ensures CheckWallet(WEAK.wallet).Done?
  {
  }

  lemma WeakFits()
    ensures UserAccountFits(WEAK) && UserAccountSmall(WEAK)
  {
  }

  lemma WeakeningHandled(cx: Context)
    requires cx.codec == Program() && cx.config == Some(FREE.Config())
    ensures Plain(Weakening(), Purses(Opened(FREE)))
    ensures var (after, s) := Handle(cx, Weakening(), Purses(Opened(FREE)), map[], 1, true); s.Done? && ID_GENESIS in after
  {
    hide Binary, Handle, Weakening, Purses, CheckFee, VerifyBalance;
    var b := Purses(Opened(FREE));
    WeakReads();
    WeakIsUpdate();
    FeeMet(FREE, cx, Weakening());
    PurseAt(Opened(FREE), ID_GENESIS);
    PurseAt(Opened(FREE), ID_FEE);
    PurseVerifies(b, ID_GENESIS, -INITIAL_TOKEN_SUPPLY, 0, WEAK.wallet.balances);
    UpdateHandled(cx, b, Weakening(), WEAK);
  }

  /** A user update of the genesis account that leaves it one key: the chain accepts the block, and the account's renewal cannot
      be made any more. */
  lemma GenesisUpdateAccepted() returns (node: ChainNode)
    ensures AnchorInvariant(Program(), Started(FREE)) && AtTip(Started(FREE), node) && |node.block.records| == 1
    ensures Program().decode(node.block.records[0]) == Some(Weakening())
    ensures var (next, s) := AddBlock(Program(), Started(FREE), node, 1);
      && s.Done? && CreateRenewal(ContextOf(Program(), next.ledger, next.world), next.world.accounts, ID_GENESIS) == Err(Internal)
  {
    hide Binary, Sealed, AddBlock, Started, Handle, Linked, Orderly, Weakening, Anchored, CreateRenewal, Live, Purses, Opened, Plain,
      MinFee;
    var st := Started(FREE);
    StartedIsLive(FREE);
    StartedIsAnchored(FREE);
    WeakIsUpdate();
    WeakeningHandled(ContextOf(Program(), st.ledger, st.world));
    OneRecordAccepted(FREE, Weakening());
    PlainReads(Weakening(), Purses(Opened(FREE)));
    FollowsStart(FREE, 1, [Sealed(Weakening())]);
    node := Follow(st, 1, [Sealed(Weakening())]);
    OnlyUpdatesGenesis(node.block);
    GenesisRenewalStopsIff(Program(), st, node, 1);
  }

  lemma OnlyUpdatesGenesis(block: Block)
    requires block.records == [Sealed(Weakening())] && Program().decode(Sealed(Weakening())) == Some(Weakening())
    ensures BlockUpdatesGenesis(Program(), block) && !BlockHasGenesisMeta(Program(), block)
  {
    hide Binary, Sealed;
    assert UpdatesGenesis(Program(), block.records[0]);
  }

  lemma StartedIsAnchored(t: Terms)
    requires t.Fair()
    ensures AnchorInvariant(Program(), Started(t))
  {
    hide Binary, Sealed, Linked, Orderly, Anchored, Purses, Opened, Founding, Booted, ValidateGenesisBlock, ProcessRecords;
    Boots(t, 0);
    StartedIsLive(t);
    FoundingReads(t);
    BootEstablishesAnchorsIff(Program(), Boot(t), BARE.world.consensus.schedule, Genesis(t), 0);
  }

  // ----- forgotten debt -----

  lemma EndingHandled(cx: Context, b: Accounts)
    requires Behind(CHARGED, cx) && ID_RESERVE in b && b[ID_RESERVE].blockId == 0 && ID_RECYCLE in b
    requires BalanceOf(b, ID_RESERVE, ID_GENESIS) == 0 && BalanceOf(b, ID_RESERVE, ID_RESERVE) == -5
    ensures Handle(cx, ENDING, b, map[], 1, true).1.Done?
    ensures Total(Handle(cx, ENDING, b, map[], 1, true).0, ID_RESERVE) == Total(b, ID_RESERVE) + 5
  {
    hide Binary, Genesis, Total, UserAccountFromBlock, MinFeeForSize, Absorb;
    MetaInGenesis(CHARGED, ID_RESERVE);
    FlatFee(CHARGED, TxEndUser(0, 0, []));
    assert Handle(cx, ENDING, b, map[], 1, true) == EndUser(cx, ENDING, b);
    WriteOffTotal(b, ID_RESERVE, ID_RESERVE);
  }

  lemma DebtsAreSmall()
    ensures TxFits(PROMISE) && TxFits(PARTING) && TxFits(ENDING)
  {
  }

  /** The three records one after another. */
  lemma DebtRecordsApply(st: ChainState, block: Block) returns (w: World)
    requires Behind(CHARGED, ContextOf(Program(), st.ledger, st.world)) && st.world.accounts == Purses(Opened(CHARGED))
    requires block.index == 1 && block.slotLeader == ID_RESERVE
    requires block.records == [Sealed(PROMISE), Sealed(PARTING), Sealed(ENDING)]
    ensures ProcessRecords(Program(), st.ledger, st.world, block, 0, true) == (w, Done)
    ensures Total(w.accounts, ID_RESERVE) == Total(st.world.accounts, ID_RESERVE) + 5
  {
    hide Binary, Sealed, Total, Handle, Purses, ProcessRecord, ProcessRecords, Transfer, Behind, CheckFee, Opened;
    var w0, cx := st.world, ContextOf(Program(), st.ledger, st.world);
    var b := st.world.accounts;
    ChargedContext(cx);
    FeeMet(CHARGED, cx, PROMISE);
    FeeMet(CHARGED, cx, PARTING);
    OpenedPurses(b);
    DebtsAreSmall();
    PromiseHandled(cx, b);
    var b1 := Handle(cx, PROMISE, b, map[], 1, true).0;
    PartingHandled(cx, b1);
    var b2 := Handle(cx, PARTING, b1, map[], 1, true).0;
    EndingHandled(cx, b2);
    var b3 := Handle(cx, ENDING, b2, map[], 1, true).0;
    w := w0.(accounts := b3);
    RecordDrift(cx, PROMISE, b, map[], 1, ID_RESERVE);
    RecordDrift(cx, PARTING, b1, map[], 1, ID_RESERVE);
    PlainApplies(st.ledger, w0, PROMISE, block);
    PlainApplies(st.ledger, w0.(accounts := b1), PARTING, block);
    PlainApplies(st.ledger, w0.(accounts := b2), ENDING, block);
    NextRecord(Program(), st.ledger, w0, block, 0);
    NextRecord(Program(), st.ledger, w0.(accounts := b1), block, 1);
    NextRecord(Program(), st.ledger, w0.(accounts := b2), block, 2);
    NoMoreRecords(st.ledger, w, block);
  }

  lemma ChargedContext(cx: Context)
    requires Behind(CHARGED, cx)
    ensures cx.codec == Program() && cx.config == Some(CHARGED.Config())
  {
  }

  lemma OpenedPurses(b: Accounts)
    requires b == Purses(Opened(CHARGED))
    ensures ID_RECYCLE in b && ID_FEE in b
    ensures ID_RESERVE in b && b[ID_RESERVE].id == ID_RESERVE && b[ID_RESERVE].blockId == 0
    ensures b[ID_RESERVE].wallet.(balances := map[]) == Purse(0).(balances := map[])
  {
  }

  /** One block: the reserve issues 5 of its own token, gives its native tokens away and is ended, since it cannot pay for its
      renewal. The chain accepts the block; the tokens stay, the debt is forgotten. */
  lemma EndingForgetsDebt() returns (node: ChainNode)
    ensures BaseInvariant(Started(CHARGED)) && AtTip(Started(CHARGED), node) && |node.block.records| == 3
    ensures Program().decode(node.block.records[2]) == Some(TxEndUser(ID_RESERVE, 0, []))
    ensures var (next, s) := AddBlock(Program(), Started(CHARGED), node, 1);
      s.Done? && Total(next.world.accounts, ID_RESERVE) == Total(Started(CHARGED).world.accounts, ID_RESERVE) + 5
  {
    hide Binary, Sealed, AddBlock, Total, Started, Linked, Orderly, Purses, Live, ProcessRecords, Behind, Opened, TxFits;
    var st := Started(CHARGED);
    var records := [Sealed(PROMISE), Sealed(PARTING), Sealed(ENDING)];
    StartedIsLive(CHARGED);
    LiveIsBased(st);
    StartedIsBehind(CHARGED);
    FollowsStart(CHARGED, 1, records);
    node := Follow(st, 1, records);
    var w := DebtRecordsApply(st, node.block);
    DebtsAreSmall();
    SealedReads(PROMISE);
    SealedReads(PARTING);
    SealedReads(ENDING);
    OpenedPurses(st.world.accounts);
    FirstBlockAccepted(CHARGED, records);
  }

  // ----- repeated keys -----

  /** A payment of nothing with a key, valid from slot 5 to slot 10. */
  const KEYED := TxDefault(ID_GENESIS, ID_RESERVE, ID_FEE, 0, 0, [], Window(7, 5, 10))

  function SlotView(slot: nat): View {
    View(Program(), Started(FREE), slot)
  }

  const WAITING := MinerState(ID_RESERVE, map[], [], [], 0, 0, SlotCache(5, true, []))

  /** The two parties as the overlay holds them. */
  function Parties(): Accounts {
    Purses(map[ID_RESERVE := INITIAL_TOKEN_SUPPLY, ID_FEE := 0])
  }

  lemma NothingMoves(cx: Context, b: Accounts, existing: Accounts)
    requires CheckFee(cx, KEYED).Done? && ID_RESERVE in b && ID_FEE in b
    requires b[ID_RESERVE] == Account.Account(ID_RESERVE, Purse(INITIAL_TOKEN_SUPPLY), 0)
    requires b[ID_FEE] == Account.Account(ID_FEE, Purse(0), 0)
    ensures forall blockId: nat :: Handle(cx, KEYED, b, existing, blockId, true) == (b, Done)
  {
    hide CheckFee;
    PurseSet(b[ID_RESERVE], INITIAL_TOKEN_SUPPLY);
    PurseSet(b[ID_FEE], 0);
    assert MoveAmount(b, ID_RESERVE, ID_FEE, ID_GENESIS, 0) == b;
  }

  lemma KeyedIsSigned(b: Accounts)
    requires ID_RESERVE in b && b[ID_RESERVE].wallet == Purse(INITIAL_TOKEN_SUPPLY)
    ensures Program().decode(Sealed(KEYED)) == Some(KEYED)
    ensures ValidateTxSignatures(Program(), b, Sealed(KEYED), ID_RESERVE, true).Done?
  {
    hide Binary, Sealed;
    SealedReads(KEYED);
    SealedIsSigned(KEYED, b, ID_RESERVE, INITIAL_TOKEN_SUPPLY);
  }

  lemma KeyedInTime(cx: Context)
    requires cx.config == Some(FREE.Config()) && cx.schedule == FREE.Slots()
    ensures Idempotency(cx, ID_RESERVE, KEYED.window, 5, true).Done?
  {
  }

  lemma Seeds(committed: Accounts, overlay: Accounts)
    requires committed == Purses(Opened(FREE)) && overlay in {map[], Parties()}
    ensures SeedAll(overlay, committed, SeedIds(KEYED)) == (Parties(), Done)
  {
    assert SeedIds(KEYED) == [ID_RESERVE, ID_FEE] && [ID_RESERVE, ID_FEE][1..] == [ID_FEE] && [ID_FEE][1..] == [];
    if overlay == map[] {
      var one := map[ID_RESERVE := committed[ID_RESERVE]];
      assert one[ID_FEE := committed[ID_FEE]] == Parties();
      SeedsLast(one, committed, ID_FEE);
    } else {
      SeedsLast(overlay, committed, ID_FEE);
    }
  }

  lemma KeyedBuffered(v: View, overlay: Accounts)
    requires v.codec.decode(Sealed(KEYED)) == Some(KEYED) && Idempotency(v.Cx(), ID_RESERVE, KEYED.window, v.slot, true).Done?
    requires ValidateTxSignatures(v.codec, v.Committed(), Sealed(KEYED), ID_RESERVE, true).Done?
    requires SeedAll(overlay, v.Committed(), SeedIds(KEYED)) == (Parties(), Done)
    requires Handle(v.Cx(), KEYED, Parties(), v.Committed(), v.BlockId(), true) == (Parties(), Done)
    ensures AddBuffer(v, ID_RESERVE, overlay, Sealed(KEYED)) == (Parties(), Done)
  {
    hide Sealed, Handle, SeedAll, Idempotency, ValidateTxSignatures, Parties;
  }

  lemma SlotSees(slot: nat)
    ensures var v := SlotView(slot);
      && v.codec == Program() && v.Committed() == Purses(Opened(FREE))
      && v.Cx().codec == Program() && v.Cx().config == Some(FREE.Config()) && v.Cx().schedule == FREE.Slots()
      && Live(v.chain) && Orderly(v.chain.ledger, FREE.Slots()) && v.chain.world.consensus.schedule == FREE.Slots()
  {
    hide Binary, Sealed, Started, Purses, Linked, Orderly;
    StartedIsLive(FREE);
  }

  /** The overlay takes the transaction, at its first and at every further offer. */
  lemma KeyedIsTaken(m: MinerState)
    requires m.minerId == ID_RESERVE && m.overlay in {map[], Parties()}
    ensures AddTransaction(SlotView(5), m, Sealed(KEYED)) == (m.(overlay := Parties(), pending := m.pending + [Sealed(KEYED)]), Done)
  {
    hide Binary, Sealed, Started, Handle, SeedAll, Idempotency, ValidateTxSignatures, Live, Purses, Opened, Parties, SlotView, AddBuffer,
      CheckFee, Orderly;
    var v := SlotView(5);
    SlotSees(5);
    OpenedReserve();
    PurseAt(Opened(FREE), ID_RESERVE);
    KeyedIsSigned(v.Committed());
    assert v.slot == 5 by {
      SlotIsFive();
    }
    KeyedInTime(v.Cx());
    Seeds(v.Committed(), m.overlay);
    FeeMet(FREE, v.Cx(), KEYED);
    PartiesHold();
    NothingMoves(v.Cx(), Parties(), v.Committed());
    KeyedBuffered(v, m.overlay);
  }

  lemma SlotIsFive()
    ensures SlotView(5).slot == 5
  {
  }

  lemma OpenedReserve()
    ensures ID_RESERVE in Opened(FREE) && Opened(FREE)[ID_RESERVE] == INITIAL_TOKEN_SUPPLY
    ensures ID_FEE in Opened(FREE) && Opened(FREE)[ID_FEE] == 0
  {
  }

  lemma PartiesHold()
    ensures ID_RESERVE in Parties() && Parties()[ID_RESERVE] == Account.Account(ID_RESERVE, Purse(INITIAL_TOKEN_SUPPLY), 0)
    ensures ID_FEE in Parties() && Parties()[ID_FEE] == Account.Account(ID_FEE, Purse(0), 0)
  {
  }

  lemma KeyedBlock(records: seq<Record>)
    requires records == [Sealed(KEYED)] || records == [Sealed(KEYED), Sealed(KEYED)]
    ensures Started(FREE).ledger.nodes != [] && CreateBlock(SlotView(5), ID_RESERVE, records, 5) == Some(Follow(Started(FREE), 5, records))
    ensures var s := ValidateBlock(Program(), Started(FREE), Follow(Started(FREE), 5, records), true, 5);
      s == if |records| == 1 then Done else Failed(TxIdempotency)
  {
    hide Binary, Sealed, Started, Live, Purses, Opened, ValidateTxSignatures, MaxBlockIdForRenewal;
    var st, b := Started(FREE), Purses(Opened(FREE));
    StartedIsLive(FREE);
    LiveBelow(st);
    LiveIsBased(st);
    FollowsStart(FREE, 5, records);
    OpenedReserve();
    PurseAt(Opened(FREE), ID_RESERVE);
    KeyedIsSigned(b);
    FollowContinues(st, 5, records);
    KeyedKeys(records);
    NoDeadlineYet(st.ledger, st.checkpoint);
    LeadsWell(st, Follow(st, 5, records).block);
  }

  lemma NoDeadlineYet(l: Ledger, p: Checkpoint)
    ensures MaxBlockIdForRenewal(l, Some(FREE.Config()), p, 1, 5) == Ok(0)
  {
  }

  lemma LeadsWell(st: ChainState, block: Block)
    requires Live(st) && block.slotLeader == ID_RESERVE && block.slot == 5 && block.timestamp == 5
    ensures st.world.consensus.schedule.IsSet() && ValidLeader(Program(), st.world.consensus, block)
    ensures Ouroboros.ValidBlockTiming(st.world.consensus.schedule, block.timestamp, block.slot)
  {
  }

  lemma KeyedKeys(records: seq<Record>)
    requires records == [Sealed(KEYED)] || records == [Sealed(KEYED), Sealed(KEYED)]
    requires Program().decode(Sealed(KEYED)) == Some(KEYED)
    ensures KeyOf(Program(), Sealed(KEYED)).Some? && (KeysDistinct(Program(), records) <==> |records| == 1)
    ensures forall i | 0 <= i < |records| :: RenewalAllowed(Program(), Purses(Opened(FREE)), 0, records[i])
  {
    hide Binary, Sealed;
    if |records| == 2 {
      assert KeyOf(Program(), records[0]) == KeyOf(Program(), records[1]);
    }
  }

  /** The same transaction with an idempotency key is taken twice into the mempool. The block cut from it is refused for the
      repeated key; the block that holds it once is accepted by the chain. */
  lemma MempoolTakesKeyTwice()
    ensures KeyOf(Program(), Sealed(KEYED)).Some? && BaseInvariant(Started(FREE))
    ensures var once := AddTransaction(SlotView(5), WAITING, Sealed(KEYED)); var twice := AddTransaction(SlotView(5), once.0, Sealed(KEYED));
      var cut := CreateBlock(SlotView(5), ID_RESERVE, TransactionSet(twice.0, 0).0, 5);
      var fine := CreateBlock(SlotView(5), ID_RESERVE, TransactionSet(once.0, 0).0, 5);
      && once.1.Done? && twice.1.Done?
      && cut.Some? && ValidateBlock(Program(), Started(FREE), cut.value, true, 5) == Failed(TxIdempotency)
      && fine.Some? && AddBlock(Program(), Started(FREE), fine.value, 5).1.Done?
  {
    hide Binary, Sealed, Started, AddTransaction, CreateBlock, ValidateBlock, Live, Purses, Opened, AddBlock, ProcessRecords;
    StartedIsLive(FREE);
    LiveIsBased(Started(FREE));
    var rec := Sealed(KEYED);
    KeyedIsTaken(WAITING);
    var once := AddTransaction(SlotView(5), WAITING, rec).0;
    KeyedIsTaken(once);
    var twice := AddTransaction(SlotView(5), once, rec).0;
    assert [] + [rec] == [rec] && [rec] + [rec] == [rec, rec];
    assert TransactionSet(twice, 0).0 == [rec, rec] && TransactionSet(once, 0).0 == [rec];
    KeyedBlock([rec, rec]);
    KeyedBlock([rec]);
    OneKeyedAccepted();
  }

  lemma OneKeyedAccepted()
    ensures Started(FREE).ledger.nodes != [] && KeyOf(Program(), Sealed(KEYED)).Some?
    ensures AddBlock(Program(), Started(FREE), Follow(Started(FREE), 5, [Sealed(KEYED)]), 5).1.Done?
  {
    hide Binary, Sealed, Started, Live, Purses, Opened, ValidateTxSignatures, Handle, ProcessRecord, ProcessRecords, ValidateBlock, Idempotency,
      CheckFee, AddBlock, Orderly, Linked;
    var st, records := Started(FREE), [Sealed(KEYED)];
    SlotSees(5);
    LiveIsBased(st);
    FollowsStart(FREE, 5, records);
    KeyedBlock(records);
    OpenedReserve();
    PurseAt(Opened(FREE), ID_RESERVE);
    KeyedIsSigned(st.world.accounts);
    KeyedKeys(records);
    var block := Follow(st, 5, records).block;
    KeyedProcessed(st, block);
    NextRecord(Program(), st.ledger, st.world, block, 0);
    NoMoreRecords(st.ledger, ProcessRecord(Program(), st.ledger, st.world, block.records[0], block, true).0, block);
    OfferedIff(SlotView(5), Follow(st, 5, records), 5);
  }

  lemma KeyedProcessed(st: ChainState, block: Block)
    requires st.world.accounts == Purses(Opened(FREE)) && st.world.config == Some(FREE.Config()) && st.world.consensus.schedule == FREE.Slots()
    requires block.slotLeader == ID_RESERVE && block.slot == 5
    requires Program().decode(Sealed(KEYED)) == Some(KEYED)
    requires ValidateTxSignatures(Program(), st.world.accounts, Sealed(KEYED), ID_RESERVE, true).Done?
    ensures ProcessRecord(Program(), st.ledger, st.world, Sealed(KEYED), block, true).1.Done?
  {
    hide Binary, Sealed, ValidateTxSignatures, Handle, Idempotency, Purses, Opened, CheckFee;
    var cx := ContextOf(Program(), st.ledger, st.world);
    OpenedReserve();
    PurseAt(Opened(FREE), ID_RESERVE);
    PurseAt(Opened(FREE), ID_FEE);
    KeyedInTime(cx);
    FeeMet(FREE, cx, KEYED);
    NothingMoves(cx, st.world.accounts, map[]);
  }

  // ----- spent records -----

  /** A miner that has taken the transaction in slot 5 and produced no block with it is stuck from slot 11 on. */
  lemma TakenIsSpentLater(slot: nat)
    requires slot > 10
    ensures var m := AddTransaction(SlotView(5), WAITING, Sealed(KEYED)).0;
      && Later(SlotView(5), SlotView(slot)) && Spent(SlotView(slot), Sealed(KEYED)) && Placed(SlotView(slot), Sealed(KEYED))
      && Stuck(m, Sealed(KEYED), slot)
  {
    hide Binary, Sealed, Started, AddTransaction, Live, Purses, Opened, Orderly;
    StartedIsLive(FREE);
    LiveOrderly(Started(FREE));
    OpenedReserve();
    PurseAt(Opened(FREE), ID_RESERVE);
    KeyedIsSigned(Purses(Opened(FREE)));
    KeyedIsTaken(WAITING);
    assert Sealed(KEYED) in [] + [Sealed(KEYED)];
  }

  lemma LiveOrderly(st: ChainState)
    requires Live(st)
    ensures Orderly(st.ledger, st.world.consensus.schedule)
  {
  }

  // ----- a joiner that does not know the fee account -----

  /** A payment with a fee between two accounts that a joiner knows: the chain accepts the block, the joiner cannot replay its
      record as long as it has not met the fee account. */
  lemma FeeAccountMustBeKnown() returns (node: ChainNode, l: Accounts)
    ensures AtTip(Started(CHARGED), node) && AddBlock(Program(), Started(CHARGED), node, 1).1.Done?
    ensures |node.block.records| == 1 && Program().decode(node.block.records[0]) == Some(PROMISE)
    ensures l.Keys == {ID_RESERVE, ID_RECYCLE} && Tracks(Knowledge({ID_RESERVE, ID_RECYCLE}, 0, false), l, Started(CHARGED).world.accounts)
    ensures forall cx :: Handle(cx, PROMISE, l, map[], 1, false).1.Failed?
  {
    hide Binary, Sealed, AddBlock, Started, Handle, Linked, Orderly, Purses, Opened, Live, Plain, Tracks, Transfer, TransferLoose, CheckFee;
    var st, b := Started(CHARGED), Purses(Opened(CHARGED));
    StartedIsLive(CHARGED);
    var cx := ContextOf(Program(), st.ledger, st.world);
    FeeMet(CHARGED, cx, PROMISE);
    PromiseHandled(cx, b);
    PromiseIsPlain(b);
    OneRecordAccepted(CHARGED, PROMISE);
    PlainReads(PROMISE, b);
    FollowsStart(CHARGED, 1, [Sealed(PROMISE)]);
    node := Follow(st, 1, [Sealed(PROMISE)]);
    OpenedPurses(b);
    l := map[ID_RESERVE := b[ID_RESERVE], ID_RECYCLE := b[ID_RECYCLE]];
    var k := Knowledge({ID_RESERVE, ID_RECYCLE}, 0, false);
    TwoTracked(b, l);
    PromiseTransfers(cx, b);
    TransferAppliesIff(k, PROMISE, l, b);
    LooseIsTransfer(l);
  }

  lemma PromiseIsPlain(b: Accounts)
    requires b == Purses(Opened(CHARGED))
    ensures Plain(PROMISE, b)
  {
    OpenedPurses(b);
  }

  lemma TwoTracked(b: Accounts, l: Accounts)
    requires b == Purses(Opened(CHARGED)) && ID_RESERVE in b && ID_RECYCLE in b
    requires l == map[ID_RESERVE := b[ID_RESERVE], ID_RECYCLE := b[ID_RECYCLE]]
    ensures Tracks(Knowledge({ID_RESERVE, ID_RECYCLE}, 0, false), l, b)
  {
    assert forall id | id in l :: LateJoiner.AgreeOn(id, l[id], b[id]);
  }

  lemma PromiseTransfers(cx: Context, b: Accounts)
    requires Handle(cx, PROMISE, b, map[], 1, true).1.Done?
    ensures Transfer(b, ID_RESERVE, ID_RECYCLE, ID_RESERVE, 5, 1).1.Done?
  {
    hide Transfer, CheckFee;
  }

  lemma LooseIsTransfer(l: Accounts)
    ensures forall cx :: Handle(cx, PROMISE, l, map[], 1, false) == TransferLoose(PROMISE, l)
  {
    hide TransferLoose;
  }
}
