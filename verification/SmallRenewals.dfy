/** Renewals on the small chain: what a renewal of one of its accounts carries and does, what a producer collects there, and
    when it comes to nothing. */
module SmallRenewals {
  import opened Numbers
  import opened Outcomes
  import opened ChainTypes
  import opened Bank
  import opened LedgerView
  import opened TxFees
  import opened TxHandlers
  import opened TxIdempotency
  import opened TxSignatures
  import opened BlockValidation
  import opened ChainSpec
  import opened ChainCodec
  import opened AccountCodec
  import opened BinaryCodec
  import opened PackedSizes
  import opened Archive
  import opened Runs
  import opened Anchoring
  import opened Renewals
  import opened RenewalAgreement
  import opened RenewalBlocks
  import opened Mining
  import opened Overlay
  import opened SmallChain

  // ----- the metadata of the genesis block -----

  /** The opening amount in the metadata of the genesis block. */
  function OpeningAmount(t: Terms, id: Id): int {
    if id == ID_RESERVE then INITIAL_TOKEN_SUPPLY - 3 * t.fee else 0
  }

  lemma MetaInGenesis(t: Terms, id: Id)
    requires t.Fair() && id in {ID_FEE, ID_RESERVE, ID_RECYCLE}
    ensures UserAccountFromBlock(Program(), Genesis(t).block, id) == Ok(UserAccount(Purse(OpeningAmount(t, id)), []))
  {
    hide Binary, Sealed, Payload, Founding;
    var records := Genesis(t).block.records;
    FoundingReads(t);
    IsFounding(t);
    OpeningReads(ID_FEE, 0, t.fee);
    OpeningReads(ID_RESERVE, INITIAL_TOKEN_SUPPLY - 3 * t.fee, t.fee);
    OpeningReads(ID_RECYCLE, 0, t.fee);
    PayloadReads(OpeningAmount(t, id));
    var found := Some(Payload(OpeningAmount(t, id)));
    var metas := UserMetas(Program(), records, id);
    var at := if id == ID_FEE then 1 else if id == ID_RESERVE then 2 else 3;
    assert metas[at] == found && forall i | at < i < 4 :: metas[i] == None;
    LastIsAt(metas, at);
  }

  lemma IsFounding(t: Terms)
    ensures Founding(t).TxGenesis? && Founding(t).fee == 0
  {
  }

  lemma {:induction false} LastIsAt(found: seq<Option<Bytes>>, at: nat)
    requires at < |found| && found[at].Some? && forall i | at < i < |found| :: found[i].None?
    ensures LastSome(found) == found[at]
    decreases |found|
  {
    if at < |found| - 1 {
      LastIsAt(found[..|found| - 1], at);
    }
  }

  lemma GenesisMetaInGenesis(t: Terms)
    requires t.Fair()
    ensures GenesisMetaFromBlock(Program(), Genesis(t).block) == Ok(GenesisMeta(t))
  {
    hide Binary, Sealed, Payload, Founding;
    FoundingReads(t);
    IsFounding(t);
    OpeningReads(ID_FEE, 0, t.fee);
    OpeningReads(ID_RESERVE, INITIAL_TOKEN_SUPPLY - 3 * t.fee, t.fee);
    OpeningReads(ID_RECYCLE, 0, t.fee);
    var metas := GenesisMetas(Program(), Genesis(t).block);
    assert metas[0] == Some(Founding(t).meta) && metas[1] == None && metas[2] == None && metas[3] == None;
    LastIsAt(metas, 0);
  }

  /** The accounts of the genesis block, seen from a ledger that starts with it. */
  ghost predicate Behind(t: Terms, cx: Context) {
    t.Fair() && cx.codec == Program() && cx.config == Some(t.Config()) && cx.ledger.start == 0 && cx.ledger.nodes != [] &&
    cx.ledger.nodes[0] == Genesis(t)
  }

  const FOUR: set<Id> := {ID_GENESIS, ID_FEE, ID_RESERVE, ID_RECYCLE}

  /** One of the four accounts of the genesis block, still as old as that, with a balance of `n`. */
  predicate Holds(b: Accounts, id: Id, n: int) {
    id in FOUR && id in b && b[id] == Account.Account(id, Purse(n), 0) && -0x1_0000_0000 <= n <= 0x1_0000_0000
  }

  lemma OldCost(t: Terms, cx: Context, b: Accounts, id: Id, n: int)
    requires Behind(t, cx) && Holds(b, id, n)
    ensures MinFee(cx, b, id) == Ok(t.fee)
  {
    hide Binary, Genesis, UserAccountFromBlock, GenesisMetaFromBlock, MinFeeForSize;
    FlatFee(t, TxEndUser(0, 0, []));
    if id == ID_GENESIS {
      GenesisMetaInGenesis(t);
    } else {
      MetaInGenesis(t, id);
    }
  }

  /** What a renewal of such an account carries. */
  lemma OldIsCarried(t: Terms, cx: Context, b: Accounts, id: Id, n: int)
    requires Behind(t, cx) && Holds(b, id, n) && (id == ID_RECYCLE ==> n < t.fee) && (id == ID_RESERVE ==> n >= t.fee)
    ensures Carried(cx, b, id)
  {
    hide Binary, Genesis, UserAccountFromBlock, GenesisMetaFromBlock, MinFee, Carried, UserAccountFits, UserAccountSmall,
      GenesisMetaFits, PackAccount, PackGenesis;
    OldCost(t, cx, b, id, n);
    var left := n - (if id == ID_FEE then 0 else t.fee);
    if id == ID_GENESIS {
      GenesisMetaInGenesis(t);
      var renewed := GenesisMeta(t).(genesis := UserAccount(Purse(left), []));
      PursePaid(n, t.fee);
      RenewedGenesisFits(t, left);
      assert GenesisPayload(cx, b, t.fee) == Ok(renewed);
    } else {
      MetaInGenesis(t, id);
      if id != ID_RECYCLE {
        PursePaid(n, t.fee);
        PayloadReads(left);
        PurseFits(left);
        assert id == ID_FEE || UserPayload(cx, b, id, t.fee) == Ok(UserAccount(Purse(left), []));
      }
    }
    BinaryCarries(bytes => bytes, (keyType, key, message, signature) => true, (stakes, slot, epoch) => ID_RESERVE, cx, b, id);
  }

  lemma PursePaid(n: int, fee: nat)
    ensures Renewals.Paying(Purse(n), fee) == Purse(n - fee)
  {
    assert map[ID_GENESIS := n][ID_GENESIS := n - fee] == map[ID_GENESIS := n - fee];
  }

  lemma RenewedGenesisFits(t: Terms, n: int)
    requires t.Fair() && InInt64(n)
    ensures var m := GenesisMeta(t).(genesis := UserAccount(Purse(n), []));
      GenesisMetaFits(m) && UserAccountSmall(m.genesis) && |Program().packGenesisMeta(m)| <= 1000
  {
    hide UserAccountFits, UserAccountBytes, UserAccountSmall, GenesisMetaBytes;
    var m := GenesisMeta(t).(genesis := UserAccount(Purse(n), []));
    PurseFits(n);
    assert GenesisMetaFits(m);
    GenesisMetaLength(m);
    PayloadReads(n);
  }

  lemma OldIsSane(t: Terms, cx: Context, b: Accounts, id: Id, n: int)
    requires Behind(t, cx) && Holds(b, id, n) && (id == ID_RECYCLE ==> 0 <= n < t.fee) && (id == ID_RESERVE ==> n >= t.fee)
    requires id == ID_FEE ==> n >= 0
    ensures Sane(cx, b, id) && Creatable(cx, b, id) && MinFee(cx, b, id) == Ok(t.fee)
  {
    hide Binary, Genesis, UserAccountFromBlock, GenesisMetaFromBlock, MinFee, Carried;
    OldCost(t, cx, b, id, n);
    OldIsCarried(t, cx, b, id, n);
    if id == ID_GENESIS {
      GenesisMetaInGenesis(t);
    } else {
      MetaInGenesis(t, id);
    }
  }

  lemma OpenedIsSane(t: Terms, cx: Context, id: Id)
    requires Behind(t, cx) && id in Opened(t) && (id == ID_RECYCLE ==> t.fee > 0)
    ensures Sane(cx, Purses(Opened(t)), id) && Creatable(cx, Purses(Opened(t)), id) && MinFee(cx, Purses(Opened(t)), id) == Ok(t.fee)
  {
    hide Binary, Purses, Sane, Creatable, MinFee, Behind;
    PurseAt(Opened(t), id);
    assert t.Fair() by {
      BehindIsFair(t, cx);
    }
    OldIsSane(t, cx, Purses(Opened(t)), id, Opened(t)[id]);
  }

  lemma BehindIsFair(t: Terms, cx: Context)
    requires Behind(t, cx)
    ensures t.Fair()
  {
  }

  lemma StartedIsBehind(t: Terms)
    requires t.Fair()
    ensures Behind(t, ContextOf(Program(), Started(t).ledger, Started(t).world)) && Started(t).world.accounts == Purses(Opened(t))
  {
    hide Genesis, Purses, Live;
    StartedIsLive(t);
  }

  // ----- what a producer collects -----

  /** One record a block, and a fee. */
  const TIGHT := Terms(1, 1, 0, 1000)

  /** Behind an empty block all four accounts of the genesis block are due while a block takes one record. What the producer
      collects ends the recycle account, which cannot pay, so the validator's limit is not waived for it. */
  lemma EndingsExceedLimit() returns (st: ChainState, m: MinerState)
    ensures AddBlock(Program(), Started(TIGHT), Follow(Started(TIGHT), 1, []), 1) == (st, Done)
    ensures Collected(ContextOf(Program(), st.ledger, st.world), st.world.accounts, st.checkpoint, 2) == Ok(m.cache.renewals)
    ensures |m.cache.renewals| == 4 && st.world.config.Some?
    ensures !WithinLimit(st.world.config.value, TransactionSet(m, st.world.config.value.maxTransactionsPerBlock).0)
  {
    hide Binary, Started, Purses, Sane, Creatable, MinFee, RenewalTx, Live, AddBlock, CreateAll, Sorted, Opened;
    FollowsStart(TIGHT, 1, []);
    FirstBlockAccepted(TIGHT, []);
    st := AddBlock(Program(), Started(TIGHT), Follow(Started(TIGHT), 1, []), 1).0;
    var cx, b := ContextOf(Program(), st.ledger, st.world), Purses(Opened(TIGHT));
    StartedIsBehind(TIGHT);
    assert Behind(TIGHT, cx);
    var ids := Sorted(IdsBefore(b, 1));
    FourDue(b);
    forall i | 0 <= i < |ids|
      ensures CreateRenewal(cx, b, ids[i]).Ok?
      ensures ids[i] == ID_RECYCLE ==> CreateRenewal(cx, b, ids[i]).value.recordType == T_END_USER
    {
      assert ids[i] in ids;
      OneCollected(cx, b, ids[i]);
    }
    CreateAllMeaning(cx, b, ids);
    var renewals := CreateAll(cx, b, ids).value;
    assert Deadline(cx, st.checkpoint, 2) == Ok(1);
    m := MinerState(ID_RESERVE, map[], [], [], 0, 0, SlotCache(2, true, renewals));
    var at :| 0 <= at < |ids| && ids[at] == ID_RECYCLE;
    assert renewals[at].recordType == T_END_USER;
    assert TransactionSet(m, 1).0[at].recordType == T_END_USER;
  }

  lemma FourDue(b: Accounts)
    requires b == Purses(Opened(TIGHT))
    ensures IdsBefore(b, 1) == {ID_GENESIS, ID_FEE, ID_RESERVE, ID_RECYCLE} && |IdsBefore(b, 1)| == 4
  {
    assert IdsBefore(b, 1) == {ID_GENESIS, ID_FEE, ID_RESERVE, ID_RECYCLE};
  }

  lemma OneCollected(cx: Context, b: Accounts, id: Id)
    requires Behind(TIGHT, cx) && b == Purses(Opened(TIGHT)) && id in {ID_GENESIS, ID_FEE, ID_RESERVE, ID_RECYCLE}
    ensures CreateRenewal(cx, b, id).Ok?
    ensures id == ID_RECYCLE ==> CreateRenewal(cx, b, id).value.recordType == T_END_USER
  {
    hide Binary, Purses, Sane, Creatable, MinFee, RenewalTx;
    OpenedIsSane(TIGHT, cx, id);
    CreationSucceedsIff(cx, b, id);
    PurseAt(Opened(TIGHT), id);
    if id == ID_RECYCLE {
      SealedReads(TxEndUser(ID_RECYCLE, 0, []));
    }
  }

  // ----- renewals carried out -----

  /** Accounts with purses, set at the given blocks. */
  function Stamped(ns: map<Id, int>, at: map<Id, nat>): Accounts {
    map id | id in ns :: Account.Account(id, Purse(ns[id]), if id in at then at[id] else 0)
  }

  lemma StampedAt(ns: map<Id, int>, at: map<Id, nat>, id: Id)
    requires id in ns
    ensures id in Stamped(ns, at) && Stamped(ns, at)[id] == Account.Account(id, Purse(ns[id]), if id in at then at[id] else 0)
  {
  }

  /** The renewal of an account with a balance of `n`. */
  function Renewing(t: Terms, id: Id, n: int): TypedTx
    requires t.Fair()
  {
    if id == ID_GENESIS then TxRenewal(id, t.fee, Program().packGenesisMeta(GenesisMeta(t).(genesis := UserAccount(Purse(n - t.fee), []))))
    else TxRenewal(id, t.fee, Payload(if id == ID_FEE then n else n - t.fee))
  }

  lemma RenewingReads(t: Terms, id: Id, n: int)
    requires t.Fair() && -0x2_0000_0000 <= n <= 0x2_0000_0000 && id < TWO_64
    ensures var tx := Renewing(t, id, n); tx.TxRenewal? && tx.walletId == id && tx.fee == t.fee && TxFits(tx) && |tx.meta| <= 1000
    ensures id == ID_GENESIS ==>
      Program().genesisMetaOf(Renewing(t, id, n).meta) == Some(GenesisMeta(t).(genesis := UserAccount(Purse(n - t.fee), [])))
    ensures id != ID_GENESIS ==>
      Program().userAccountOf(Renewing(t, id, n).meta) == Some(UserAccount(Purse(if id == ID_FEE then n else n - t.fee), []))
  {
    hide UserAccountFits, UserAccountBytes, UserAccountSmall, GenesisMetaBytes, Payload, GenesisMetaFromBytes;
    if id == ID_GENESIS {
      RenewedGenesisFits(t, n - t.fee);
      GenesisMetaRoundTrip(GenesisMeta(t).(genesis := UserAccount(Purse(n - t.fee), [])));
    } else {
      PayloadReads(if id == ID_FEE then n else n - t.fee);
    }
  }

  /** A renewal takes the fee from the account and gives it to the fee account. */
  lemma RenewingHandled(t: Terms, cx: Context, ns: map<Id, int>, at: map<Id, nat>, id: Id, existing: Accounts, blockId: nat)
    requires t.Fair() && cx.codec == Program() && cx.config == Some(t.Config()) && Modest(ns)
    requires id in ns && id < TWO_64 && id != ID_FEE && ID_FEE in ns
    ensures Handle(cx, Renewing(t, id, ns[id]), Stamped(ns, at), existing, blockId, true)
         == (Stamped(ns[id := ns[id] - t.fee][ID_FEE := ns[ID_FEE] + t.fee], at[id := blockId]), Done)
  {
    hide Binary, Renewing, Stamped, CheckFee, VerifyBalance, ReplaceAndPay;
    var b, tx := Stamped(ns, at), Renewing(t, id, ns[id]);
    RenewingReads(t, id, ns[id]);
    FeeMet(t, cx, tx);
    FeeMet(t, cx, TxUserUpdate(id, t.fee, tx.meta, Window(0, 0, 0)));
    StampedAt(ns, at, id);
    PurseVerifies(b, id, ns[id], t.fee, Purse(ns[id] - t.fee).balances);
    StampedPays(ns, at, id, blockId, t.fee);
  }

  lemma StampedPays(ns: map<Id, int>, at: map<Id, nat>, id: Id, blockId: nat, fee: nat)
    requires Modest(ns) && id in ns && id != ID_FEE && ID_FEE in ns && fee < 1000
    ensures ReplaceAndPay(Stamped(ns, at), id, Purse(ns[id] - fee), blockId, fee)
         == (Stamped(ns[id := ns[id] - fee][ID_FEE := ns[ID_FEE] + fee], at[id := blockId]), Done)
  {
    var after := ReplaceAndPay(Stamped(ns, at), id, Purse(ns[id] - fee), blockId, fee).0;
    var expected := Stamped(ns[id := ns[id] - fee][ID_FEE := ns[ID_FEE] + fee], at[id := blockId]);
    PurseSet(Stamped(ns, at)[ID_FEE], ns[ID_FEE] + fee);
    assert after == expected;
  }

  /** The fee account's own renewal changes nothing but its block, provided its fee has just been paid into it. */
  lemma FeeRenewingHandled(t: Terms, cx: Context, ns: map<Id, int>, at: map<Id, nat>, existing: Accounts, blockId: nat)
    requires t.Fair() && cx.codec == Program() && cx.config == Some(t.Config()) && Modest(ns) && ID_FEE in ns
    ensures Handle(cx, Renewing(t, ID_FEE, ns[ID_FEE] - t.fee), Stamped(ns, at), existing, blockId, true)
         == (Stamped(ns, at[ID_FEE := blockId]), Done)
  {
    hide Binary, Renewing, Stamped, CheckFee, VerifyBalance, ReplaceAndPay;
    var b, n := Stamped(ns, at), ns[ID_FEE] - t.fee;
    RenewingReads(t, ID_FEE, n);
    FeeMet(t, cx, TxUserUpdate(ID_FEE, t.fee, Renewing(t, ID_FEE, n).meta, Window(0, 0, 0)));
    StampedAt(ns, at, ID_FEE);
    PurseVerifies(b, ID_FEE, ns[ID_FEE], t.fee, Purse(n).balances);
    StampedFeePays(ns, at, blockId, t.fee);
  }

  lemma StampedFeePays(ns: map<Id, int>, at: map<Id, nat>, blockId: nat, fee: nat)
    requires Modest(ns) && ID_FEE in ns && fee < 1000
    ensures ReplaceAndPay(Stamped(ns, at), ID_FEE, Purse(ns[ID_FEE] - fee), blockId, fee) == (Stamped(ns, at[ID_FEE := blockId]), Done)
  {
    PurseSet(Account.Account(ID_FEE, Purse(ns[ID_FEE] - fee), blockId), ns[ID_FEE]);
    assert ReplaceAndPay(Stamped(ns, at), ID_FEE, Purse(ns[ID_FEE] - fee), blockId, fee).0 == Stamped(ns, at[ID_FEE := blockId]);
  }

  /** What is collected for such an account. */
  lemma OldIsRenewed(t: Terms, cx: Context, b: Accounts, id: Id, n: int)
    requires Behind(t, cx) && Holds(b, id, n) && (id == ID_RECYCLE ==> 0 <= n < t.fee) && (id == ID_RESERVE ==> n >= t.fee)
    requires id == ID_FEE ==> n >= 0
    ensures RenewalTx(cx, b, id) == Ok(if id == ID_RECYCLE then TxEndUser(id, 0, []) else Renewing(t, id, n))
  {
    hide Binary, Genesis, UserAccountFromBlock, GenesisMetaFromBlock, MinFee, PackAccount, PackGenesis;
    OldCost(t, cx, b, id, n);
    PursePaid(n, t.fee);
    if id == ID_GENESIS {
      GenesisMetaInGenesis(t);
    } else {
      MetaInGenesis(t, id);
    }
  }

  // ----- the fee account due without the genesis account -----

  /** The genesis account's renewal in the first block. */
  function Early(): TypedTx {
    Renewing(CHARGED, ID_GENESIS, -INITIAL_TOKEN_SUPPLY)
  }

  lemma EarlyHandled(cx: Context)
    requires cx.codec == Program() && cx.config == Some(CHARGED.Config())
    ensures Plain(Early(), Purses(Opened(CHARGED))) && Early().TxRenewal? && Early().walletId == ID_GENESIS && ID_GENESIS in Opened(CHARGED)
    ensures Handle(cx, Early(), Purses(Opened(CHARGED)), map[], 1, true).1.Done?
    ensures var b := Handle(cx, Early(), Purses(Opened(CHARGED)), map[], 1, true).0;
      && b.Keys == FOUR && b[ID_GENESIS].blockId == 1
      && Holds(b, ID_FEE, 4) && Holds(b, ID_RESERVE, INITIAL_TOKEN_SUPPLY - 3) && Holds(b, ID_RECYCLE, 0)
  {
    hide Binary, Handle, Renewing, CheckFee, Stamped, TxFits, Purses;
    var ns := Opened(CHARGED);
    assert Purses(ns) == Stamped(ns, map[]) by {
      PursesAreStamped(ns);
    }
    RenewingReads(CHARGED, ID_GENESIS, -INITIAL_TOKEN_SUPPLY);
    RenewingHandled(CHARGED, cx, ns, map[], ID_GENESIS, map[], 1);
    PurseAt(ns, ID_RESERVE);
    EarlyStamped();
  }

  lemma PursesAreStamped(ns: map<Id, int>)
    ensures Purses(ns) == Stamped(ns, map[])
  {
  }

  lemma EarlyStamped()
    ensures var b := Stamped(Opened(CHARGED)[ID_GENESIS := -INITIAL_TOKEN_SUPPLY - 1][ID_FEE := 4], map[ID_GENESIS := 1]);
      && b.Keys == FOUR && b[ID_GENESIS].blockId == 1
      && Holds(b, ID_FEE, 4) && Holds(b, ID_RESERVE, INITIAL_TOKEN_SUPPLY - 3) && Holds(b, ID_RECYCLE, 0)
  {
  }

  /** The record of a fee account that is due before any record has paid into it. */
  lemma FeeFirstIsRejected(v: View, leader: Id, rec: Record)
    requires Behind(CHARGED, v.Cx()) && Holds(v.Committed(), ID_FEE, 4)
    requires v.codec.decode(rec) == Some(Renewing(CHARGED, ID_FEE, 4))
    ensures AddBuffer(v, leader, map[], rec).1.Failed?
  {
    hide Binary, Handle, Renewing, ValidateTxSignatures, Sane, Creatable, MinFee, RenewalTx, Genesis;
    var cx, b := v.Cx(), v.Committed();
    OldIsSane(CHARGED, cx, b, ID_FEE, 4);
    OldIsRenewed(CHARGED, cx, b, ID_FEE, 4);
    RenewingReads(CHARGED, ID_FEE, 4);
    var tx := Renewing(CHARGED, ID_FEE, 4);
    assert SeedIds(tx) == [ID_FEE];
    SeedsLast(map[], b, ID_FEE);
    var one := map[ID_FEE := b[ID_FEE]];
    assert SeedFromCommitted(map[], b, ID_FEE) == (one, Done);
    FeeRenewalAcceptedIff(cx, b, one, 0, b, v.BlockId());
  }

  lemma TwoSorted()
    ensures Sorted({ID_RESERVE, ID_RECYCLE}) == [ID_RESERVE, ID_RECYCLE]
  {
    hide Sorted;
    SortedStarts({ID_RESERVE, ID_RECYCLE}, ID_RESERVE);
    assert {ID_RESERVE, ID_RECYCLE} - {ID_RESERVE} == {ID_RECYCLE};
    SortedStarts({ID_RECYCLE}, ID_RECYCLE);
    assert {ID_RECYCLE} - {ID_RECYCLE} == {};
    assert Sorted({}) == [] by {
      NoneSorted();
    }
  }

  lemma NoneSorted()
    ensures Sorted({}) == []
  {
  }

  lemma ThreeSorted()
    ensures Sorted({ID_FEE, ID_RESERVE, ID_RECYCLE}) == [ID_FEE, ID_RESERVE, ID_RECYCLE]
  {
    hide Sorted;
    SortedStarts({ID_FEE, ID_RESERVE, ID_RECYCLE}, ID_FEE);
    assert {ID_FEE, ID_RESERVE, ID_RECYCLE} - {ID_FEE} == {ID_RESERVE, ID_RECYCLE};
    TwoSorted();
  }

  lemma FourSorted()
    ensures Sorted(FOUR) == [ID_GENESIS, ID_FEE, ID_RESERVE, ID_RECYCLE]
  {
    hide Sorted;
    SortedStarts(FOUR, ID_GENESIS);
    assert FOUR - {ID_GENESIS} == {ID_FEE, ID_RESERVE, ID_RECYCLE};
    ThreeSorted();
  }

  lemma ThreeDue(b: Accounts)
    requires b.Keys == FOUR && b[ID_GENESIS].blockId == 1 && b[ID_FEE].blockId == b[ID_RESERVE].blockId == b[ID_RECYCLE].blockId == 0
    ensures IdsBefore(b, 1) == {ID_FEE, ID_RESERVE, ID_RECYCLE}
    ensures Sorted(IdsBefore(b, 1)) == [ID_FEE, ID_RESERVE, ID_RECYCLE]
  {
    hide Sorted;
    assert IdsBefore(b, 1) == {ID_FEE, ID_RESERVE, ID_RECYCLE};
    ThreeSorted();
  }

  /** The three records that are collected. */
  lemma ThreeCollected(cx: Context, b: Accounts) returns (records: seq<Record>)
    requires Behind(CHARGED, cx) && b.Keys == FOUR && b[ID_GENESIS].blockId == 1
    requires Holds(b, ID_FEE, 4) && Holds(b, ID_RESERVE, INITIAL_TOKEN_SUPPLY - 3) && Holds(b, ID_RECYCLE, 0)
    ensures CreateAll(cx, b, Sorted(IdsBefore(b, 1))) == Ok(records) && |records| == 3
    ensures forall signatures :: cx.codec.decode(records[0].(signatures := signatures)) == Some(Renewing(CHARGED, ID_FEE, 4))
    ensures RenewalIdOf(cx.codec, records[0]) == Some(ID_FEE)
  {
    hide Binary, Renewing, Sane, Creatable, MinFee, RenewalTx, CreateAll, Sorted, Genesis;
    ThreeDue(b);
    var ids := [ID_FEE, ID_RESERVE, ID_RECYCLE];
    OldIsRenewed(CHARGED, cx, b, ID_FEE, 4);
    OldIsRenewed(CHARGED, cx, b, ID_RESERVE, INITIAL_TOKEN_SUPPLY - 3);
    OldIsRenewed(CHARGED, cx, b, ID_RECYCLE, 0);
    OldIsSane(CHARGED, cx, b, ID_FEE, 4);
    OldIsCarried(CHARGED, cx, b, ID_FEE, 4);
    CreateAllMeaning(cx, b, ids);
    assert CreateRenewal(cx, b, ids[0]).Ok? && CreateRenewal(cx, b, ids[1]).Ok? && CreateRenewal(cx, b, ids[2]).Ok?;
    records := CreateAll(cx, b, ids).value;
    forall signatures
      ensures cx.codec.decode(records[0].(signatures := signatures)) == Some(Renewing(CHARGED, ID_FEE, 4))
    {
      assert records[0] == cx.codec.encode(RenewalTx(cx, b, ID_FEE).value).(signatures := []);
      assert records[0].(signatures := signatures) == cx.codec.encode(RenewalTx(cx, b, ID_FEE).value).(signatures := signatures);
    }
    RenewingReads(CHARGED, ID_FEE, 4);
    assert records[0].(signatures := records[0].signatures) == records[0];
  }

  /** The first block renews the genesis account by itself. From then on the fee account is due without it: what is collected
      starts with the fee account's record, and no miner can ever prepare a slot, whatever is pending. */
  lemma FeeRenewalStopsProducers() returns (node: ChainNode, st: ChainState, collected: seq<Record>)
    ensures BaseInvariant(Started(CHARGED)) && AtTip(Started(CHARGED), node) && AddBlock(Program(), Started(CHARGED), node, 1) == (st, Done)
    ensures |node.block.records| == 1 && RenewalIdOf(Program(), node.block.records[0]) == Some(ID_GENESIS)
    ensures IdsBefore(st.world.accounts, 1) == {ID_FEE, ID_RESERVE, ID_RECYCLE} && |collected| == 3
    ensures RenewalIdOf(Program(), collected[0]) == Some(ID_FEE)
    ensures forall slot: nat, now: int :: var v := View(Program(), st, slot);
      Deadline(v.Cx(), st.checkpoint, now) == Ok(1) && Collected(v.Cx(), v.Committed(), st.checkpoint, now) == Ok(collected)
    ensures forall slot: nat, now: int, m, sign :: var v := View(Program(), st, slot);
      PrepareSlot(v, m, true, SignedRenewals(v, sign, now)).1.Failed?
  {
    hide Binary, Sealed, Started, Purses, Handle, Renewing, Early, Live, Plain, AddBlock, CreateAll, Sorted, Genesis, Behind, Opened,
      AddBuffer, Stamped, Linked, Orderly;
    StartedIsLive(CHARGED);
    LiveIsBased(Started(CHARGED));
    StartedIsBehind(CHARGED);
    var cx0 := ContextOf(Program(), Started(CHARGED).ledger, Started(CHARGED).world);
    BehindConfig(CHARGED, cx0);
    EarlyHandled(cx0);
    OneRecordAccepted(CHARGED, Early());
    PlainReads(Early(), Purses(Opened(CHARGED)));
    FollowsStart(CHARGED, 1, [Sealed(Early())]);
    node := Follow(Started(CHARGED), 1, [Sealed(Early())]);
    st := AddBlock(Program(), Started(CHARGED), node, 1).0;
    var cx, b := ContextOf(Program(), st.ledger, st.world), st.world.accounts;
    GrowthStaysBehind(CHARGED, Started(CHARGED), st, node);
    collected := ThreeCollected(cx, b);
    ThreeDue(b);
    forall now: int
      ensures Deadline(cx, st.checkpoint, now) == Ok(1) && Collected(cx, b, st.checkpoint, now) == Ok(collected)
    {
    }
    forall slot: nat, now: int, m, sign
      ensures PrepareSlot(View(Program(), st, slot), m, true, SignedRenewals(View(Program(), st, slot), sign, now)).1.Failed?
    {
      var v := View(Program(), st, slot);
      var signed := Signed(sign, collected);
      if signed.Some? {
        SigningKeepsData(sign, collected);
        assert signed.value[0] == collected[0].(signatures := signed.value[0].signatures);
        FeeFirstIsRejected(v, m.minerId, signed.value[0]);
        assert (signed.value + m.pending)[0] == signed.value[0];
      }
    }
  }

  lemma BehindConfig(t: Terms, cx: Context)
    requires Behind(t, cx)
    ensures cx.codec == Program() && cx.config == Some(t.Config())
  {
  }

  lemma GrowthStaysBehind(t: Terms, st: ChainState, next: ChainState, node: ChainNode)
    requires Behind(t, ContextOf(Program(), st.ledger, st.world)) && next.ledger == Appended(st.ledger, node)
    requires next.world.config == Some(t.Config())
    ensures Behind(t, ContextOf(Program(), next.ledger, next.world)) && next.ledger.Next() == st.ledger.Next() + 1
  {
    hide Genesis;
  }
}
