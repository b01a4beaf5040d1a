/** An account that its own renewal record ends, and a payment to it in the same slot: the overlay takes the payment, and no chain
    takes the block. */
module EndedAccounts {
  import opened Numbers
  import opened Outcomes
  import opened ChainTypes
  import opened Bank
  import opened LedgerView
  import opened TxFees
  import opened TxHandlers
  import opened TxIdempotency
  import opened BlockValidation
  import opened ChainSpec
  import opened BinaryCodec
  import opened ChainCodec
  import opened PackedSizes
  import opened Runs
  import opened Renewals
  import opened RenewalAgreement
  import opened Mining
  import opened Overlay
  import opened ProducedBlocks
  import opened SmallChain
  import opened SmallRenewals
  import LateJoiner
  import Ouroboros

  // ----- seeding -----

  /** The overlay with the accounts it lacks. */
  function Copied(overlay: Accounts, committed: Accounts, ids: seq<Id>): Accounts {
    overlay + map id | id in ids && id !in overlay && id in committed :: committed[id]
  }

  lemma {:induction false} SeedingCopies(overlay: Accounts, committed: Accounts, ids: seq<Id>)
    requires IdsMatch(committed) && forall id | id in ids :: id in committed
    ensures SeedAll(overlay, committed, ids) == (Copied(overlay, committed, ids), Done)
    decreases |ids|
  {
    if ids == [] {
      assert Copied(overlay, committed, ids) == overlay;
    } else {
      var next := SeedFromCommitted(overlay, committed, ids[0]).0;
      SeedingCopies(next, committed, ids[1..]);
      assert Copied(overlay, committed, ids) == Copied(next, committed, ids[1..]);
    }
  }

  lemma BufferStep(v: View, overlay: Accounts, tx: TypedTx, seeded: Accounts, after: Accounts)
    requires v.codec == Program() && Plain(tx, v.Committed())
    requires SeedAll(overlay, v.Committed(), SeedIds(tx)) == (seeded, Done)
    requires Handle(v.Cx(), tx, seeded, v.Committed(), v.BlockId(), true) == (after, Done)
    ensures AddBuffer(v, ID_RESERVE, overlay, Sealed(tx)) == (after, Done)
  {
    hide Binary, Sealed, Handle, SeedAll, ValidateTxSignatures, TxFits;
    PlainIsSigned(tx, v.Committed());
    PlainReads(tx, v.Committed());
  }

  // ----- the slot -----

  const HELD := INITIAL_TOKEN_SUPPLY - 3
  const CLOSING := TxEndUser(ID_RECYCLE, 0, [])
  const GIFT := TxDefault(ID_GENESIS, ID_RESERVE, ID_RECYCLE, 5, 1, [], NEVER)

  /** What is collected behind an empty block. */
  function Dues(): (txs: seq<TypedTx>)
    ensures |txs| == 4
  {
    [Renewing(CHARGED, ID_GENESIS, -INITIAL_TOKEN_SUPPLY), Renewing(CHARGED, ID_FEE, 3), Renewing(CHARGED, ID_RESERVE, HELD), CLOSING]
  }

  function SealedDues(): (records: seq<Record>)
    ensures |records| == 4
  {
    [Sealed(Dues()[0]), Sealed(Dues()[1]), Sealed(Dues()[2]), Sealed(CLOSING)]
  }

  /** The accounts other than the recycle account, one renewal after another. */
  const N1: map<Id, int> := map[ID_GENESIS := -INITIAL_TOKEN_SUPPLY - 1, ID_FEE := 4]
  const N2: map<Id, int> := map[ID_GENESIS := -INITIAL_TOKEN_SUPPLY - 1, ID_FEE := 5, ID_RESERVE := HELD - 1]
  const T1: map<Id, nat> := map[ID_GENESIS := 2]
  const T2: map<Id, nat> := map[ID_GENESIS := 2, ID_FEE := 2]
  const T3: map<Id, nat> := map[ID_GENESIS := 2, ID_FEE := 2, ID_RESERVE := 2]

  /** Behind an empty block, in any slot. */
  ghost predicate Second(v: View) {
    && v.codec == Program() && Behind(CHARGED, v.Cx()) && v.Committed() == Purses(Opened(CHARGED)) && v.BlockId() == 2
  }

  lemma DuesArePlain(i: nat)
    requires i < 4
    ensures Plain(Dues()[i], Purses(Opened(CHARGED)))
  {
    hide Renewing, TxFits;
    RenewingReads(CHARGED, ID_GENESIS, -INITIAL_TOKEN_SUPPLY);
    RenewingReads(CHARGED, ID_FEE, 3);
    RenewingReads(CHARGED, ID_RESERVE, HELD);
    PurseAt(Opened(CHARGED), ID_RESERVE);
    assert TxFits(CLOSING) by {
      ClosingFits();
    }
  }

  lemma ClosingFits()
    ensures TxFits(CLOSING) && TxFits(GIFT)
  {
  }

  lemma CopiesNone(ns: map<Id, int>, at: map<Id, nat>, b: Accounts, ids: seq<Id>)
    requires forall id | id in ids :: id in ns
    ensures Copied(Stamped(ns, at), b, ids) == Stamped(ns, at)
  {
  }

  lemma CopiesOne(ns: map<Id, int>, at: map<Id, nat>, ms: map<Id, int>, ids: seq<Id>, id: Id)
    requires id in ids && id !in ns && id !in at && id in ms && forall other | other in ids && other != id :: other in ns
    ensures Copied(Stamped(ns, at), Purses(ms), ids) == Stamped(ns[id := ms[id]], at)
  {
  }

  lemma CopiesTwo(ms: map<Id, int>)
    requires ID_GENESIS in ms && ID_FEE in ms
    ensures Copied(map[], Purses(ms), [ID_GENESIS, ID_FEE]) == Stamped(map[ID_GENESIS := ms[ID_GENESIS], ID_FEE := ms[ID_FEE]], map[])
  {
  }

  /** The recycle account cannot pay for its renewal, and ending it leaves nothing of it. */
  lemma ClosingHandled(cx: Context, ns: map<Id, int>, at: map<Id, nat>, existing: Accounts, blockId: nat)
    requires Behind(CHARGED, cx) && ID_RECYCLE in ns && ns[ID_RECYCLE] == 0 && ID_RECYCLE !in at
    ensures Handle(cx, CLOSING, Stamped(ns, at), existing, blockId, true) == (Stamped(ns - {ID_RECYCLE}, at), Done)
  {
    hide Binary, Genesis, MinFeeForAccount, Absorb;
    var b := Stamped(ns, at);
    StampedAt(ns, at, ID_RECYCLE);
    OldCost(CHARGED, cx, b, ID_RECYCLE, 0);
    assert EndUser(cx, CLOSING, b).0 == Stamped(ns - {ID_RECYCLE}, at);
  }

  lemma SecondSees(v: View)
    requires Second(v)
    ensures v.Cx().codec == Program() && v.Cx().config == Some(CHARGED.Config()) && IdsMatch(v.Committed()) && v.Committed().Keys == FOUR
  {
    hide Genesis;
  }

  /** The overlay takes the `i`-th collected record. */
  predicate Takes(v: View, overlay: Accounts, i: nat, after: Accounts) {
    i < 4 && AddBuffer(v, ID_RESERVE, overlay, SealedDues()[i]) == (after, Done)
  }

  lemma GenesisBuffered(v: View)
    requires Second(v)
    ensures Takes(v, map[], 0, Stamped(N1, T1))
  {
    hide Binary, Sealed, AddBuffer, Renewing, Stamped, Purses, Plain, Handle, SeedAll, Copied, Behind;
    var tx := Dues()[0];
    var n0: map<Id, int> := map[ID_GENESIS := -INITIAL_TOKEN_SUPPLY, ID_FEE := 3];
    SecondSees(v);
    DuesArePlain(0);
    DueSeeds();
    CopiesTwo(Opened(CHARGED));
    SeedingCopies(map[], v.Committed(), SeedIds(tx));
    RenewingHandled(CHARGED, v.Cx(), n0, map[], ID_GENESIS, v.Committed(), 2);
    assert n0[ID_GENESIS := n0[ID_GENESIS] - 1][ID_FEE := n0[ID_FEE] + 1] == N1;
    BufferStep(v, map[], tx, Stamped(n0, map[]), Stamped(N1, T1));
  }

  lemma FeeBuffered(v: View)
    requires Second(v)
    ensures Takes(v, Stamped(N1, T1), 1, Stamped(N1, T2))
  {
    hide Binary, Sealed, AddBuffer, Renewing, Stamped, Purses, Plain, Handle, SeedAll, Copied, Behind, Opened;
    var tx := Dues()[1];
    SecondSees(v);
    DuesArePlain(1);
    DueSeeds();
    CopiesNone(N1, T1, v.Committed(), [ID_FEE]);
    SeedingCopies(Stamped(N1, T1), v.Committed(), SeedIds(tx));
    FeeRenewingHandled(CHARGED, v.Cx(), N1, T1, v.Committed(), 2);
    assert T1[ID_FEE := 2] == T2;
    BufferStep(v, Stamped(N1, T1), tx, Stamped(N1, T1), Stamped(N1, T2));
  }

  lemma ReserveBuffered(v: View)
    requires Second(v)
    ensures Takes(v, Stamped(N1, T2), 2, Stamped(N2, T3))
  {
    hide Binary, Sealed, AddBuffer, Renewing, Stamped, Purses, Plain, Handle, SeedAll, Copied, Behind;
    var tx := Dues()[2];
    var n1 := N1[ID_RESERVE := HELD];
    SecondSees(v);
    DuesArePlain(2);
    DueSeeds();
    CopiesOne(N1, T2, Opened(CHARGED), [ID_RESERVE, ID_FEE], ID_RESERVE);
    SeedingCopies(Stamped(N1, T2), v.Committed(), SeedIds(tx));
    RenewingHandled(CHARGED, v.Cx(), n1, T2, ID_RESERVE, v.Committed(), 2);
    assert n1[ID_RESERVE := n1[ID_RESERVE] - 1][ID_FEE := n1[ID_FEE] + 1] == N2 && T2[ID_RESERVE := 2] == T3;
    BufferStep(v, Stamped(N1, T2), tx, Stamped(n1, T2), Stamped(N2, T3));
  }

  lemma RecycleBuffered(v: View)
    requires Second(v)
    ensures Takes(v, Stamped(N2, T3), 3, Stamped(N2, T3))
  {
    hide Binary, Sealed, AddBuffer, Renewing, Stamped, Purses, Plain, Handle, SeedAll, Copied, Behind, Opened;
    var n2 := N2[ID_RECYCLE := 0];
    SecondSees(v);
    DuesArePlain(3);
    DueSeeds();
    OpenedNothing();
    CopiesOne(N2, T3, Opened(CHARGED), [ID_RECYCLE, ID_RECYCLE], ID_RECYCLE);
    SeedingCopies(Stamped(N2, T3), v.Committed(), SeedIds(CLOSING));
    ClosingHandled(v.Cx(), n2, T3, v.Committed(), 2);
    assert n2 - {ID_RECYCLE} == N2;
    BufferStep(v, Stamped(N2, T3), CLOSING, Stamped(n2, T3), Stamped(N2, T3));
  }

  lemma DueSeeds()
    ensures SeedIds(Dues()[0]) == [ID_GENESIS, ID_FEE] && SeedIds(Dues()[1]) == [ID_FEE] && SeedIds(Dues()[2]) == [ID_RESERVE, ID_FEE]
    ensures SeedIds(CLOSING) == [ID_RECYCLE, ID_RECYCLE] && SeedIds(GIFT) == [ID_RESERVE, ID_RECYCLE, ID_FEE]
    ensures Dues()[3] == CLOSING
  {
    hide Binary;
  }

  /** And then the payment to the account that one of them has ended. */
  lemma GiftBuffered(v: View)
    requires Second(v)
    ensures AddBuffer(v, ID_RESERVE, Stamped(N2, T3), Sealed(GIFT)).1.Done?
  {
    hide Binary, Sealed, AddBuffer, Purses, Plain, Handle, SeedAll, Copied, Behind, Stamped, CheckFee, Opened;
    var b, o, cx := v.Committed(), Opened(CHARGED), v.Cx();
    SecondSees(v);
    GiftIsPlain();
    DueSeeds();
    var n2 := N2[ID_RECYCLE := 0];
    assert ID_RECYCLE in o && o[ID_RECYCLE] == 0 by {
      OpenedNothing();
    }
    CopiesOne(N2, T3, o, [ID_RESERVE, ID_RECYCLE, ID_FEE], ID_RECYCLE);
    SeedingCopies(Stamped(N2, T3), b, SeedIds(GIFT));
    FeeMet(CHARGED, cx, GIFT);
    GiftHandled(cx, n2, b);
    BufferStep(v, Stamped(N2, T3), GIFT, Stamped(n2, T3), Handle(cx, GIFT, Stamped(n2, T3), b, 2, true).0);
  }

  lemma OpenedNothing()
    ensures ID_RECYCLE in Opened(CHARGED) && Opened(CHARGED)[ID_RECYCLE] == 0
  {
  }

  lemma GiftIsPlain()
    ensures Plain(GIFT, Purses(Opened(CHARGED)))
  {
    ClosingFits();
    PurseAt(Opened(CHARGED), ID_RESERVE);
  }

  lemma GiftHandled(cx: Context, n2: map<Id, int>, existing: Accounts)
    requires n2 == N2[ID_RECYCLE := 0] && CheckFee(cx, GIFT).Done?
    ensures Handle(cx, GIFT, Stamped(n2, T3), existing, 2, true).1.Done?
  {
    hide CheckFee;
  }

  // ----- what is collected -----

  function SignAll(): Bytes -> Option<seq<Bytes>> {
    (data: Bytes) => Some(SIGNED)
  }

  const IDLE := MinerState(ID_RESERVE, map[], [], [], 0, 0, NO_SLOT)

  lemma AllDue(b: Accounts)
    requires b == Purses(Opened(CHARGED))
    ensures IdsBefore(b, 1) == FOUR
  {
    assert IdsBefore(b, 1) == FOUR;
  }

  lemma OpenedHolds(b: Accounts)
    requires b == Purses(Opened(CHARGED))
    ensures Holds(b, ID_GENESIS, -INITIAL_TOKEN_SUPPLY) && Holds(b, ID_FEE, 3) && Holds(b, ID_RESERVE, HELD) && Holds(b, ID_RECYCLE, 0)
  {
  }

  lemma OneSealed(cx: Context, b: Accounts, id: Id, tx: TypedTx)
    requires cx.codec == Program() && RenewalTx(cx, b, id) == Ok(tx)
    ensures CreateRenewal(cx, b, id).Ok? && CreateRenewal(cx, b, id).value.(signatures := [] + SIGNED) == Sealed(tx)
    ensures CreateRenewal(cx, b, id).value.signatures == []
  {
    hide Binary, RenewalTx;
    assert [] + SIGNED == SIGNED;
  }

  lemma {:induction false} SignsAll(records: seq<Record>)
    ensures Signed(SignAll(), records).Some?
    ensures var signed := Signed(SignAll(), records).value;
      |signed| == |records| && forall i | 0 <= i < |records| :: signed[i] == records[i].(signatures := records[i].signatures + SIGNED)
    decreases |records|
  {
    if records != [] {
      assert SignAll()(records[0].data) == Some(SIGNED);
      SignsAll(records[1..]);
    }
  }

  lemma DuesCollected(v: View, now: int)
    requires Second(v)
    ensures SignedRenewals(v, SignAll(), now) == Some(SealedDues())
  {
    hide Binary, Sealed, Renewing, Purses, Behind, CreateAll, Sorted, Signed, RenewalTx, Opened;
    var b, cx := v.Committed(), v.Cx();
    var ids := [ID_GENESIS, ID_FEE, ID_RESERVE, ID_RECYCLE];
    SecondSees(v);
    AllDue(b);
    FourSorted();
    OpenedHolds(b);
    OldIsRenewed(CHARGED, cx, b, ID_GENESIS, -INITIAL_TOKEN_SUPPLY);
    OldIsRenewed(CHARGED, cx, b, ID_FEE, 3);
    OldIsRenewed(CHARGED, cx, b, ID_RESERVE, HELD);
    OldIsRenewed(CHARGED, cx, b, ID_RECYCLE, 0);
    forall i | 0 <= i < 4
      ensures CreateRenewal(cx, b, ids[i]).Ok? && CreateRenewal(cx, b, ids[i]).value.signatures == []
      ensures CreateRenewal(cx, b, ids[i]).value.(signatures := [] + SIGNED) == SealedDues()[i]
    {
      OneSealed(cx, b, ids[i], RenewalTx(cx, b, ids[i]).value);
    }
    CreateAllMeaning(cx, b, ids);
    SignsAll(CreateAll(cx, b, ids).value);
    assert Signed(SignAll(), CreateAll(cx, b, ids).value).value == SealedDues();
    assert Deadline(cx, v.chain.checkpoint, now) == Ok(1);
  }

  lemma FourBuffered(v: View, rs: seq<Record>, a: Accounts, b: Accounts, c: Accounts, d: Accounts)
    requires |rs| == 4 && AddBuffer(v, ID_RESERVE, map[], rs[0]) == (a, Done) && AddBuffer(v, ID_RESERVE, a, rs[1]) == (b, Done)
    requires AddBuffer(v, ID_RESERVE, b, rs[2]) == (c, Done) && AddBuffer(v, ID_RESERVE, c, rs[3]) == (d, Done)
    ensures AddBuffers(v, ID_RESERVE, map[], rs) == (d, Done)
  {
    hide AddBuffer, AddBuffers;
    OneBuffered(v, map[], rs[0]);
    OneBuffered(v, a, rs[1]);
    OneBuffered(v, b, rs[2]);
    OneBuffered(v, c, rs[3]);
    AddPrefix(v, ID_RESERVE, map[], [rs[0]], [rs[1]]);
    AddPrefix(v, ID_RESERVE, map[], [rs[0]] + [rs[1]], [rs[2]]);
    AddPrefix(v, ID_RESERVE, map[], [rs[0]] + [rs[1]] + [rs[2]], [rs[3]]);
    assert [rs[0]] + [rs[1]] + [rs[2]] + [rs[3]] == rs;
  }

  lemma DuesTaken(v: View)
    requires Second(v)
    ensures AddBuffers(v, ID_RESERVE, map[], SealedDues()) == (Stamped(N2, T3), Done)
  {
    hide Binary, Sealed, Renewing, Purses, Behind, AddBuffer, AddBuffers, Stamped, SealedDues;
    GenesisBuffered(v);
    FeeBuffered(v);
    ReserveBuffered(v);
    RecycleBuffered(v);
    FourBuffered(v, SealedDues(), Stamped(N1, T1), Stamped(N1, T2), Stamped(N2, T3), Stamped(N2, T3));
  }

  /** The idle miner once the slot is prepared. */
  function ReadyIn(slot: nat): MinerState {
    IDLE.(overlay := Stamped(N2, T3), cache := SlotCache(slot, true, SealedDues()))
  }

  lemma SlotPrepared(v: View, now: int)
    requires Second(v)
    ensures PrepareSlot(v, IDLE, true, SignedRenewals(v, SignAll(), now)) == (ReadyIn(v.slot), Done)
  {
    hide Second, SignAll, Sealed, AddBuffers, Stamped, SignedRenewals, SealedDues;
    DuesCollected(v, now);
    DuesTaken(v);
    assert SealedDues() + [] == SealedDues();
  }

  lemma GiftTaken(v: View)
    requires Second(v)
    ensures AddTransaction(v, ReadyIn(v.slot), Sealed(GIFT)).1.Done?
    ensures AddTransaction(v, ReadyIn(v.slot), Sealed(GIFT)).0.pending == [Sealed(GIFT)]
    ensures AddTransaction(v, ReadyIn(v.slot), Sealed(GIFT)).0.cache == ReadyIn(v.slot).cache
    ensures AddBuffers(v, ID_RESERVE, map[], SealedDues() + [Sealed(GIFT)]).1.Done?
  {
    hide Second, Sealed, AddBuffer, AddBuffers, Stamped, SealedDues;
    DuesTaken(v);
    GiftBuffered(v);
    OneBuffered(v, Stamped(N2, T3), Sealed(GIFT));
    AddPrefix(v, ID_RESERVE, map[], SealedDues(), [Sealed(GIFT)]);
    assert [] + [Sealed(GIFT)] == [Sealed(GIFT)];
  }

  lemma OneBuffered(v: View, overlay: Accounts, rec: Record)
    ensures var r := AddBuffer(v, ID_RESERVE, overlay, rec); r.1.Done? ==> AddBuffers(v, ID_RESERVE, overlay, [rec]) == r
    ensures var r := AddBuffer(v, ID_RESERVE, overlay, rec); AddBuffers(v, ID_RESERVE, overlay, [rec]).1.Done? <==> r.1.Done?
  {
    hide AddBuffer;
    assert [rec][1..] == [];
  }

  // ----- the two blocks -----

  lemma DuesRead()
    ensures forall i: nat | i < 4 :: Program().decode(SealedDues()[i]) == Some(Dues()[i])
    ensures forall i: nat | i < 3 :: Dues()[i].TxRenewal?
    ensures Dues()[0].walletId == ID_GENESIS && Dues()[1].walletId == ID_FEE && Dues()[2].walletId == ID_RESERVE && Dues()[3] == CLOSING
    ensures Program().decode(Sealed(GIFT)) == Some(GIFT)
  {
    hide Binary, Sealed, Plain;
    forall i: nat | i < 4
      ensures Program().decode(SealedDues()[i]) == Some(Dues()[i])
    {
      DuesArePlain(i);
      PlainReads(Dues()[i], Purses(Opened(CHARGED)));
    }
    GiftIsPlain();
    PlainReads(GIFT, Purses(Opened(CHARGED)));
  }

  lemma GiftTouchesEnded()
    ensures !LeavesEndedAlone(Program(), SealedDues() + [Sealed(GIFT)], {})
    ensures NoConfig(Program(), SealedDues() + [Sealed(GIFT)]) && LateJoiner.KeepsFeeAccount(Program(), SealedDues() + [Sealed(GIFT)])
  {
    hide Binary, Sealed, Renewing;
    DuesRead();
    var records := SealedDues() + [Sealed(GIFT)];
    assert records[4] == Sealed(GIFT) && forall i: nat | i < 4 :: records[i] == SealedDues()[i];
    EndedJoins(Program(), SealedDues(), [Sealed(GIFT)], {});
    assert Ended(Program(), SealedDues()) >= {ID_RECYCLE} by {
      EndedJoins(Program(), SealedDues()[..3], [Sealed(CLOSING)], {});
      assert SealedDues()[..3] + [Sealed(CLOSING)] == SealedDues() && [Sealed(CLOSING)][1..] == [];
      assert Program().decode(Sealed(CLOSING)) == Program().decode(SealedDues()[3]);
    }
  }

  /** No chain in this state accepts the block with the payment. */
  lemma CutIsRefused(v: View, node: ChainNode, now: int)
    requires Second(v) && Live(v.chain) && AtTip(v.chain, node) && node.block.slot == v.slot
    requires node.block.records == SealedDues() + [Sealed(GIFT)]
    ensures AddBlock(v.codec, v.chain, node, now).1.Failed?
  {
    hide Binary, Sealed, Behind, AddBuffers, OverlayRun, BlockRun, LeavesEndedAlone, NoConfig, LateJoiner.KeepsFeeAccount, ProcessRecords,
      Linked, Orderly, ValidateBlock, Purses;
    SecondSees(v);
    GiftTaken(v);
    GiftTouchesEnded();
    AddBuffersRun(v, ID_RESERVE, map[], node.block.records);
    OverlayAgreesIff(v.Cx(), v.Committed(), node.block.records, v.slot);
    UnrunIsRefused(v, node.block);
    OfferedIff(v, node, now);
  }

  const B0: map<Id, int> := map[ID_GENESIS := -INITIAL_TOKEN_SUPPLY, ID_FEE := 3, ID_RESERVE := HELD, ID_RECYCLE := 0]
  const B1: map<Id, int> := map[ID_GENESIS := -INITIAL_TOKEN_SUPPLY - 1, ID_FEE := 4, ID_RESERVE := HELD, ID_RECYCLE := 0]
  const B2: map<Id, int> := map[ID_GENESIS := -INITIAL_TOKEN_SUPPLY - 1, ID_FEE := 5, ID_RESERVE := HELD - 1, ID_RECYCLE := 0]
  const B3: map<Id, int> := map[ID_GENESIS := -INITIAL_TOKEN_SUPPLY - 1, ID_FEE := 5, ID_RESERVE := HELD - 1]

  lemma StampedIsPlain(tx: TypedTx, ns: map<Id, int>, at: map<Id, nat>)
    requires Plain(tx, Purses(Opened(CHARGED))) && SignerOf(tx, ID_RESERVE) in ns
    ensures Plain(tx, Stamped(ns, at))
  {
    hide TxFits;
  }

  lemma GenesisDue(cx: Context)
    requires cx.codec == Program() && cx.config == Some(CHARGED.Config())
    ensures Handle(cx, Dues()[0], Stamped(B0, map[]), map[], 2, true) == (Stamped(B1, T1), Done)
  {
    hide Binary, Renewing, Stamped, Handle;
    RenewingHandled(CHARGED, cx, B0, map[], ID_GENESIS, map[], 2);
    assert B0[ID_GENESIS := B0[ID_GENESIS] - 1][ID_FEE := B0[ID_FEE] + 1] == B1;
  }

  lemma FeeDue(cx: Context)
    requires cx.codec == Program() && cx.config == Some(CHARGED.Config())
    ensures Handle(cx, Dues()[1], Stamped(B1, T1), map[], 2, true) == (Stamped(B1, T2), Done)
  {
    hide Binary, Renewing, Stamped, Handle;
    FeeRenewingHandled(CHARGED, cx, B1, T1, map[], 2);
    assert T1[ID_FEE := 2] == T2;
  }

  lemma ReserveDue(cx: Context)
    requires cx.codec == Program() && cx.config == Some(CHARGED.Config())
    ensures Handle(cx, Dues()[2], Stamped(B1, T2), map[], 2, true) == (Stamped(B2, T3), Done)
  {
    hide Binary, Renewing, Stamped, Handle;
    RenewingHandled(CHARGED, cx, B1, T2, ID_RESERVE, map[], 2);
    assert B1[ID_RESERVE := B1[ID_RESERVE] - 1][ID_FEE := B1[ID_FEE] + 1] == B2;
    assert T2[ID_RESERVE := 2] == T3;
  }

  lemma ClosedTo(cx: Context, ns: map<Id, int>, ms: map<Id, int>, at: map<Id, nat>)
    requires Behind(CHARGED, cx) && ID_RECYCLE in ns && ns[ID_RECYCLE] == 0 && ID_RECYCLE !in at && ms == ns - {ID_RECYCLE}
    ensures Handle(cx, CLOSING, Stamped(ns, at), map[], 2, true) == (Stamped(ms, at), Done)
  {
    hide Stamped, Handle, Behind;
    ClosingHandled(cx, ns, at, map[], 2);
  }

  lemma Emptied()
    ensures B2 - {ID_RECYCLE} == B3 && ID_RECYCLE in B2 && B2[ID_RECYCLE] == 0 && ID_RECYCLE !in T3
  {
    assert B2 - {ID_RECYCLE} == B3;
  }

  lemma RenewalSigner(i: nat)
    requires i < 4
    ensures SignerOf(Dues()[i], ID_RESERVE) == ID_RESERVE
  {
    hide Renewing;
    DuesRead();
  }

  lemma StartsStamped()
    ensures Purses(Opened(CHARGED)) == Stamped(B0, map[])
  {
    assert Opened(CHARGED) == B0;
    PursesAreStamped(B0);
  }

  /** A block of the four records applies. */
  lemma DuesApply(l: Ledger, w: World, block: Block)
    requires Behind(CHARGED, ContextOf(Program(), l, w)) && w.accounts == Purses(Opened(CHARGED))
    requires block.index == 2 && block.slotLeader == ID_RESERVE && block.records == SealedDues()
    ensures ProcessRecords(Program(), l, w, block, 0, true) == (w.(accounts := Stamped(B3, T3)), Done)
  {
    hide Binary, Renewing, Stamped, Handle, Behind, Purses, Sealed, Plain, ProcessRecord, ProcessRecords, Opened, SignerOf, Dues;
    var cx := ContextOf(Program(), l, w);
    BehindConfig(CHARGED, cx);
    GenesisDue(cx);
    FeeDue(cx);
    ReserveDue(cx);
    Emptied();
    ClosedTo(cx, B2, B3, T3);
    StartsStamped();
    forall i: nat | i < 4
      ensures Plain(Dues()[i], Stamped(B0, map[])) && Plain(Dues()[i], Stamped(B1, T1)) && Plain(Dues()[i], Stamped(B1, T2)) && Plain(Dues()[i], Stamped(B2, T3))
    {
      DuesArePlain(i);
      RenewalSigner(i);
      StampedIsPlain(Dues()[i], B0, map[]);
      StampedIsPlain(Dues()[i], B1, T1);
      StampedIsPlain(Dues()[i], B1, T2);
      StampedIsPlain(Dues()[i], B2, T3);
    }
    DueSeeds();
    var w1, w2, w3 := w.(accounts := Stamped(B1, T1)), w.(accounts := Stamped(B1, T2)), w.(accounts := Stamped(B2, T3));
    PlainApplies(l, w, Dues()[0], block);
    PlainApplies(l, w1, Dues()[1], block);
    PlainApplies(l, w2, Dues()[2], block);
    PlainApplies(l, w3, CLOSING, block);
    NextRecord(Program(), l, w, block, 0);
    NextRecord(Program(), l, w1, block, 1);
    NextRecord(Program(), l, w2, block, 2);
    NextRecord(Program(), l, w3, block, 3);
    NoMoreRecords(l, w.(accounts := Stamped(B3, T3)), block);
  }

  lemma DuesAreComplete(b: Accounts)
    requires b == Purses(Opened(CHARGED))
    ensures RenewalsComplete(Program(), b, 1, SealedDues()) && KeysDistinct(Program(), SealedDues())
  {
    hide Binary, Renewing, Sealed;
    DuesRead();
    var rs := SealedDues();
    assert RenewalIdOf(Program(), rs[0]) == Some(ID_GENESIS) && RenewalIdOf(Program(), rs[1]) == Some(ID_FEE);
    assert RenewalIdOf(Program(), rs[2]) == Some(ID_RESERVE) && RenewalIdOf(Program(), rs[3]) == Some(ID_RECYCLE);
    assert forall i: nat | i < 4 :: KeyOf(Program(), rs[i]).None?;
  }

  /** Right behind an empty block. */
  lemma SecondState() returns (st: ChainState)
    ensures AddBlock(Program(), Started(CHARGED), Follow(Started(CHARGED), 1, []), 1) == (st, Done)
    ensures Live(st) && Second(View(Program(), st, 2)) && st.ledger.nodes[|st.ledger.nodes| - 1].block.slot == 1
    ensures st.world.consensus.schedule == CHARGED.Slots()
  {
    hide Binary, Started, Purses, Live, AddBlock, Opened, Genesis, ProcessRecords;
    StartedIsLive(CHARGED);
    StartedIsBehind(CHARGED);
    FollowsStart(CHARGED, 1, []);
    var node := Follow(Started(CHARGED), 1, []);
    NoMoreRecords(Started(CHARGED).ledger, Started(CHARGED).world, node.block);
    FirstBlockAccepted(CHARGED, []);
    st := AddBlock(Program(), Started(CHARGED), node, 1).0;
    GrowthStaysBehind(CHARGED, Started(CHARGED), st, node);
    LiveIsBased(Started(CHARGED));
    OfferKeepsBase(Program(), Started(CHARGED), node, 1);
    LiveOn(Started(CHARGED), st);
  }

  lemma LiveOn(st: ChainState, next: ChainState)
    requires Live(st) && BaseInvariant(next) && next.world.consensus == st.world.consensus
    ensures Live(next)
  {
    hide Linked, Orderly;
  }

  /** Behind an empty block the miner prepares the slot: the genesis, the fee and the reserve account are renewed, the fee
      account's record passing behind the genesis account's, and the recycle account is ended. The block of these records alone is
      accepted. But then the overlay takes a payment to the account that has just been ended, and the block with the payment is
      refused at any time. */
  lemma PaymentToEndedAccount() returns (st: ChainState, fine: ChainNode, cut: ChainNode)
    ensures BaseInvariant(Started(CHARGED)) && AddBlock(Program(), Started(CHARGED), Follow(Started(CHARGED), 1, []), 1) == (st, Done)
    ensures Program().decode(Sealed(GIFT)) == Some(TxDefault(ID_GENESIS, ID_RESERVE, ID_RECYCLE, 5, 1, [], NEVER))
    ensures var v := View(Program(), st, 2);
      var (ready, s) := PrepareSlot(v, IDLE, true, SignedRenewals(v, SignAll(), 2));
      var (taken, t) := AddTransaction(v, ready, Sealed(GIFT));
      && s.Done? && t.Done? && st.ledger.nodes != []
      && |ready.cache.renewals| == 4 && RenewalIdOf(Program(), ready.cache.renewals[1]) == Some(ID_FEE)
      && Program().decode(ready.cache.renewals[3]) == Some(TxEndUser(ID_RECYCLE, 0, []))
      && CreateBlock(v, ID_RESERVE, TransactionSet(ready, 0).0, 2) == Some(fine) && AtTip(st, fine) && AddBlock(Program(), st, fine, 2).1.Done?
      && CreateBlock(v, ID_RESERVE, TransactionSet(taken, 0).0, 2) == Some(cut) && AtTip(st, cut)
      && forall now :: AddBlock(Program(), st, cut, now).1.Failed?
  {
    hide Binary, Sealed, Started, Purses, Live, AddBlock, Opened, Genesis, SignedRenewals, AddTransaction, PrepareSlot, SealedDues, Second,
      CreateBlock, TransactionSet, AtTip, BaseInvariant;
    StartedIsLive(CHARGED);
    LiveIsBased(Started(CHARGED));
    st := SecondState();
    LiveIsBased(st);
    var v := View(Program(), st, 2);
    fine := Follow(st, 2, SealedDues());
    cut := Follow(st, 2, SealedDues() + [Sealed(GIFT)]);
    SlotOutcome(v);
    FineIsAccepted(v);
    SecondTips(v, SealedDues() + [Sealed(GIFT)]);
    forall now
      ensures AddBlock(Program(), st, cut, now).1.Failed?
    {
      CutIsRefused(v, cut, now);
    }
  }

  lemma SlotOutcome(v: View)
    requires Second(v) && Live(v.chain) && v.slot == 2 && v.chain.ledger.nodes[|v.chain.ledger.nodes| - 1].block.slot == 1
    ensures var (ready, s) := PrepareSlot(v, IDLE, true, SignedRenewals(v, SignAll(), 2));
      var (taken, t) := AddTransaction(v, ready, Sealed(GIFT));
      && s.Done? && t.Done? && v.chain.ledger.nodes != []
      && |ready.cache.renewals| == 4 && RenewalIdOf(Program(), ready.cache.renewals[1]) == Some(ID_FEE)
      && Program().decode(ready.cache.renewals[3]) == Some(CLOSING)
      && CreateBlock(v, ID_RESERVE, TransactionSet(ready, 0).0, 2) == Some(Follow(v.chain, 2, SealedDues()))
      && CreateBlock(v, ID_RESERVE, TransactionSet(taken, 0).0, 2) == Some(Follow(v.chain, 2, SealedDues() + [Sealed(GIFT)]))
    ensures Program().decode(Sealed(GIFT)) == Some(GIFT)
  {
    hide Binary, Sealed, SignedRenewals, AddTransaction, PrepareSlot, SealedDues, Second, CreateBlock, Dues, Live, Stamped, Follow,
      TransactionSet;
    SlotPrepared(v, 2);
    GiftTaken(v);
    DuesRead();
    ReadyChoices();
    SecondTips(v, SealedDues());
    SecondTips(v, SealedDues() + [Sealed(GIFT)]);
  }

  lemma ReadyChoices()
    ensures forall m: MinerState :: m.cache.renewals == SealedDues() && m.pending == [] ==> TransactionSet(m, 0).0 == SealedDues()
    ensures forall m: MinerState :: m.cache.renewals == SealedDues() && m.pending == [Sealed(GIFT)] ==>
      TransactionSet(m, 0).0 == SealedDues() + [Sealed(GIFT)]
  {
    hide Sealed, SealedDues;
    assert SealedDues() + [] == SealedDues();
  }

  lemma SecondTips(v: View, records: seq<Record>)
    requires Second(v) && Live(v.chain) && v.slot == 2 && v.chain.ledger.nodes[|v.chain.ledger.nodes| - 1].block.slot == 1
    ensures v.chain.ledger.nodes != [] && AtTip(v.chain, Follow(v.chain, 2, records))
    ensures Follow(v.chain, 2, records).block.records == records && Follow(v.chain, 2, records).block.slot == 2
    ensures CreateBlock(v, ID_RESERVE, records, 2) == Some(Follow(v.chain, 2, records))
  {
    hide Binary, Behind, Purses, Orderly;
    TipNumber(v.chain.ledger);
  }

  lemma FineIsAccepted(v: View)
    requires Second(v) && Live(v.chain) && v.slot == 2 && v.chain.ledger.nodes[|v.chain.ledger.nodes| - 1].block.slot == 1
    ensures v.chain.ledger.nodes != [] && AtTip(v.chain, Follow(v.chain, 2, SealedDues()))
    ensures AddBlock(Program(), v.chain, Follow(v.chain, 2, SealedDues()), 2).1.Done?
  {
    hide Binary, Behind, Purses, Orderly, Linked, AddBlock, ProcessRecords, SealedDues, RenewalsComplete, KeysDistinct, Opened;
    SecondTips(v, SealedDues());
    BehindConfig(CHARGED, v.Cx());
    DuesAreComplete(v.Committed());
    DuesApply(v.chain.ledger, v.chain.world, Follow(v.chain, 2, SealedDues()).block);
    FollowAccepted(v.chain, 2, SealedDues(), 2, 1);
  }
}
