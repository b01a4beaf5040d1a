/** A small chain run with the program's own codec: a genesis block and what comes right after it. Signatures are taken to be
    good and the reserve leads every slot; neither is checked against anything the block says. */
module SmallChain {
  import opened Numbers
  import opened Outcomes
  import opened ChainTypes
  import opened Bank
  import opened LedgerView
  import opened TxFees
  import opened TxHandlers
  import opened TxIdempotency
  import opened TxSignatures
  import opened BlockValidation
  import opened ChainSpec
  import opened Archive
  import opened ChainCodec
  import opened AccountCodec
  import opened BinaryCodec
  import opened PackedSizes
  import opened Runs
  import opened LateJoiner
  import Ouroboros

  const KEYS: seq<Bytes> := [[], [], []]
  const SIGNED: seq<Bytes> := [[], []]
  const NEVER := Window(0, 0, 0)

  function Program(): Codec {
    Binary(bytes => bytes, (keyType, key, message, signature) => true, (stakes, slot, epoch) => ID_RESERVE)
  }

  /** A constant fee, a block limit, a minimum checkpoint age and the length of an epoch. */
  datatype Terms = Terms(fee: nat, maxTx: nat, minAge: u64, epoch: u64) {
    predicate Fair() {
      fee < 1000 && maxTx < 1000 && minAge < 1000 && 0 < epoch <= 1000
    }

    function Slots(): Ouroboros.Schedule {
      Ouroboros.Schedule(0, 1, epoch)
    }

    function Config(): BlockChainConfig {
      BlockChainConfig(0, 1, epoch, 1000, maxTx, [fee], 1000, CheckpointConfig(2, minAge), 1000)
    }
  }

  const FREE := Terms(0, 0, 0, 1000)
  const CHARGED := Terms(1, 0, 0, 1000)

  function Purse(n: int): Wallet {
    Wallet(map[ID_GENESIS := n], KEYS, 2, TK_ED25519)
  }

  function Payload(n: int): Bytes {
    Program().packUserAccount(UserAccount(Purse(n), []))
  }

  function Sealed(tx: TypedTx): Record {
    Program().encode(tx).(signatures := SIGNED)
  }

  // ----- what is packed reads back -----

  lemma PurseFits(n: int)
    requires InInt64(n)
    ensures var a := UserAccount(Purse(n), []); UserAccountFits(a) && UserAccountSmall(a)
  {
  }

  lemma PayloadReads(n: int)
    requires InInt64(n)
    ensures Program().userAccountOf(Payload(n)) == Some(UserAccount(Purse(n), []))
    ensures 0 < |Payload(n)| <= 100
  {
    hide UserAccountFits, UserAccountBytes, UserAccountFromBytes, UserAccountSmall;
    var a := UserAccount(Purse(n), []);
    PurseFits(n);
    UserAccountRoundTrip(a);
    UserAccountLength(a);
    assert KEYS[1..] == [[], []] && KEYS[1..][1..] == [[]] && KEYS[1..][1..][1..] == [];
    assert KeysLength(KEYS) == 24;
    assert |a.wallet.balances| == 1;
  }

  lemma SealedReads(tx: TypedTx)
    requires TxFits(tx) && |tx.meta| <= MAX_STRING_SIZE
    ensures Program().decode(Sealed(tx)) == Some(tx)
    ensures Sealed(tx).recordType == TypeOf(tx) && Sealed(tx).signatures == SIGNED
  {
    hide TxFits, TxBytes, DecodeRecord;
    TxRoundTrip(tx, SIGNED);
  }

  lemma SignedWell(data: Bytes, a: Account, n: int)
    requires a.wallet == Purse(n)
    ensures CheckSignatures(Program(), data, SIGNED, a).Done?
  {
    var ok := VerifierFor(Program(), TK_ED25519, data);
    var none := NoneUsed(KEYS);
    assert FirstFree(ok, KEYS, none, SIGNED[0], 0) == Some(0);
    var one := none[0 := true];
    assert SIGNED[1..] == [[]] && SIGNED[1..][1..] == [];
    assert FirstFree(ok, KEYS, one, SIGNED[1..][0], 0) == FirstFree(ok, KEYS, one, SIGNED[1..][0], 1) == Some(1);
    assert Greedy(ok, KEYS, one[1 := true], []);
    assert Greedy(ok, KEYS, one, SIGNED[1..]);
  }

  lemma FlatFee(t: Terms, tx: TypedTx)
    requires t.Fair() && |tx.meta| <= 1000
    ensures MinFeeForTx(Program(), t.Config(), tx) == Ok(t.fee)
    ensures MinFeeForSize(t.Config(), 0) == Ok(t.fee)
  {
    hide Binary;
    assert MinFeeForSize(t.Config(), |tx.meta|) == Ok(t.fee);
  }

  lemma FeeMet(t: Terms, cx: Context, tx: TypedTx)
    requires t.Fair() && cx.codec == Program() && cx.config == Some(t.Config()) && |tx.meta| <= 1000 && tx.fee >= t.fee
    ensures CheckFee(cx, tx).Done?
  {
    hide MinFeeForTx, Binary;
    FlatFee(t, tx);
  }

  // ----- banks of such wallets -----

  lemma PurseVerifies(b: Accounts, id: Id, n: int, fee: u64, expected: Balances)
    requires id in b && b[id].wallet == Purse(n) && expected == map[ID_GENESIS := n - fee]
    requires InInt64(n) && InInt64(n - fee) && fee <= INT64_MAX
    ensures VerifyBalance(b, id, 0, fee, expected).Done?
  {
  }

  function Purses(ns: map<Id, int>): Accounts {
    map id | id in ns :: Account.Account(id, Purse(ns[id]), 0)
  }

  lemma PurseSet(a: Account, n: int)
    requires a.wallet.balances.Keys <= {ID_GENESIS} && a.wallet.(balances := map[]) == Purse(n).(balances := map[])
    ensures WithBalance(a, ID_GENESIS, n) == a.(wallet := Purse(n))
  {
    assert a.wallet.balances[ID_GENESIS := n] == map[ID_GENESIS := n];
  }

  predicate Modest(ns: map<Id, int>) {
    forall id | id in ns :: -0x1_0000_0000 <= ns[id] <= 0x1_0000_0000
  }

  function Moved(ns: map<Id, int>, from: Id, to: Id, amount: nat, fee: nat): map<Id, int>
    requires from in ns
  {
    var held := if to in ns then ns[to] else 0;
    var paid := ns[from := ns[from] - amount - fee][to := held + amount];
    if fee > 0 && ID_FEE in paid then paid[ID_FEE := paid[ID_FEE] + fee] else paid
  }

  predicate Able(ns: map<Id, int>, from: Id, amount: nat, fee: nat) {
    from in ns && amount <= 0x1_0000_0000 && fee < 1000 && (from == ID_GENESIS || ns[from] >= amount + fee)
  }

  lemma PurseSpends(ns: map<Id, int>, from: Id, amount: nat, fee: nat)
    requires Modest(ns) && Able(ns, from, amount, fee)
    ensures VerifySpendingPower(Purses(ns), from, ID_GENESIS, amount, fee).Done?
  {
  }

  /** One account of a transfer, sender, receiver or fee account. */
  lemma PursePaying(c: Account, n: int, id: Id, from: Id, to: Id, amount: nat, fee: nat)
    requires from != to && TokenBalance(c.wallet.balances, ID_GENESIS) == n
    requires c.wallet.balances.Keys <= {ID_GENESIS} && c.wallet.(balances := map[]) == Purse(n).(balances := map[])
    requires id == to || c.wallet == Purse(n)
    ensures Credited(Paying(c, id, from, to, ID_GENESIS, amount, fee), id, fee) == c.(wallet := Purse(
      n - (if id == from then amount + fee else 0) + (if id == to then amount else 0) + (if id == ID_FEE then fee else 0)))
  {
    forall d: Account, m: int | d.wallet.balances.Keys <= {ID_GENESIS} && d.wallet.(balances := map[]) == Purse(m).(balances := map[])
      ensures WithBalance(d, ID_GENESIS, m) == d.(wallet := Purse(m))
    {
      PurseSet(d, m);
    }
  }

  /** A payment to an account that has just been opened, empty. */
  lemma PursePays(ns: map<Id, int>, to: Id, from: Id, amount: nat, fee: nat, a: Account)
    requires Modest(ns) && Able(ns, from, amount, fee) && to !in ns && from != to && (fee > 0 ==> ID_FEE in ns || to == ID_FEE)
    requires a.id == to && a.blockId == 0 && a.wallet == Purse(0).(balances := map[])
    ensures Transfer(Purses(ns)[to := a], from, to, ID_GENESIS, amount, fee) == (Purses(Moved(ns, from, to, amount, fee)), Done)
  {
    hide VerifySpendingPower, Transfer, Credited, Paying;
    var b := Purses(ns)[to := a];
    PurseSpends(ns, from, amount, fee);
    assert Transfer(b, from, to, ID_GENESIS, amount, fee).1.Done? by {
      FundingWorks(ns, from, a, amount, fee);
    }
    TransferPointwise(b, from, to, ID_GENESIS, amount, fee);
    var after, expected := Transfer(b, from, to, ID_GENESIS, amount, fee).0, Purses(Moved(ns, from, to, amount, fee));
    assert after.Keys == expected.Keys;
    forall id | id in b
      ensures after[id] == expected[id]
    {
      PursePaying(b[id], if id == to then 0 else ns[id], id, from, to, amount, fee);
    }
    assert after == expected;
  }

  lemma FundingWorks(ns: map<Id, int>, from: Id, a: Account, amount: nat, fee: nat)
    requires Modest(ns) && Able(ns, from, amount, fee) && a.id !in ns && (fee > 0 ==> ID_FEE in ns || a.id == ID_FEE)
    requires a.wallet.balances == map[]
    ensures Transfer(Purses(ns)[a.id := a], from, a.id, ID_GENESIS, amount, fee).1.Done?
  {
    PurseSpends(ns, from, amount, fee);
  }

  lemma NoMoreRecords(l: Ledger, w: World, block: Block)
    ensures ProcessRecords(Program(), l, w, block, |block.records|, true) == (w, Done)
  {
  }

  // ----- the genesis block -----

  function GenesisMeta(t: Terms): GenesisAccountMeta {
    GenesisAccountMeta(t.Config(), UserAccount(Purse(0), []))
  }

  function Opening(to: Id, amount: u64, fee: u64): TypedTx {
    TxNewUser(ID_GENESIS, to, amount, fee, Payload(amount), NEVER)
  }

  function Founding(t: Terms): TypedTx {
    TxGenesis(0, Program().packGenesisMeta(GenesisMeta(t)))
  }

  function Genesis(t: Terms): ChainNode
    requires t.Fair()
  {
    var block := Block(0, 0, [Sealed(Founding(t)), Sealed(Opening(ID_FEE, 0, t.fee)),
                              Sealed(Opening(ID_RESERVE, INITIAL_TOKEN_SUPPLY - 3 * t.fee, t.fee)),
                              Sealed(Opening(ID_RECYCLE, 0, t.fee))], ['0' as int], 0, 0, 0, 0);
    ChainNode(block, Program().hashOf(block))
  }

  lemma OpeningReads(to: Id, amount: u64, fee: u64)
    requires to < TWO_64 && amount <= INT64_MAX
    ensures Program().decode(Sealed(Opening(to, amount, fee))) == Some(Opening(to, amount, fee))
    ensures Sealed(Opening(to, amount, fee)).recordType == T_NEW_USER
    ensures |Opening(to, amount, fee).meta| <= 100
  {
    hide Binary, Sealed, Payload;
    PayloadReads(amount);
    SealedReads(Opening(to, amount, fee));
  }

  lemma OpeningHandled(t: Terms, ns: map<Id, int>, cx: Context, to: Id, amount: u64)
    requires t.Fair() && Modest(ns) && ID_GENESIS in ns && to !in ns && to < TWO_64 && amount <= 0x1_0000_0000
    requires ID_FEE in ns || to == ID_FEE
    requires cx.codec == Program() && cx.config == Some(t.Config())
    ensures NewUser(cx, Opening(to, amount, t.fee), Purses(ns), map[], 0, true)
         == (Purses(Moved(ns, ID_GENESIS, to, amount, t.fee)), Done)
  {
    hide Binary, Sealed, Payload, MinFeeForTx, Transfer, VerifySpendingPower, CheckSignatures, Moved;
    var tx := Opening(to, amount, t.fee);
    PayloadReads(amount);
    FlatFee(t, tx);
    PurseSpends(ns, ID_GENESIS, amount, t.fee);
    PursePays(ns, to, ID_GENESIS, amount, t.fee, Account.Account(to, Purse(0).(balances := map[]), 0));
    assert Purse(amount).balances == map[ID_GENESIS := amount];
    assert |Purse(amount).balances| == 1;
    assert CheckNewUser(cx, tx, Purses(ns), map[], true).Done?;
    assert Purse(amount).(balances := map[]) == Purse(0).(balances := map[]);
  }

  lemma SealedIsSigned(tx: TypedTx, b: Accounts, leader: Id, n: int)
    requires TxFits(tx) && |tx.meta| <= MAX_STRING_SIZE
    requires SignerOf(tx, leader) in b && b[SignerOf(tx, leader)].wallet == Purse(n)
    ensures ValidateTxSignatures(Program(), b, Sealed(tx), leader, true).Done?
  {
    hide Binary, Sealed, CheckSignatures, TxFits;
    SealedReads(tx);
    SignedWell(Sealed(tx).data, b[SignerOf(tx, leader)], n);
  }

  /** Opening an account out of the genesis account. */
  lemma OpeningApplies(t: Terms, ns: map<Id, int>, w: World, l: Ledger, to: Id, amount: u64, block: Block)
    requires t.Fair() && Modest(ns) && ID_GENESIS in ns && to !in ns && to < TWO_64 && amount <= 0x1_0000_0000
    requires ID_FEE in ns || to == ID_FEE
    requires w.config == Some(t.Config()) && w.accounts == Purses(ns) && block.index == 0
    ensures ProcessRecord(Program(), l, w, Sealed(Opening(to, amount, t.fee)), block, true)
         == (w.(accounts := Purses(Moved(ns, ID_GENESIS, to, amount, t.fee))), Done)
  {
    hide Binary, Sealed, Payload, NewUser, ValidateTxSignatures, Moved, Purses;
    var tx := Opening(to, amount, t.fee);
    OpeningReads(to, amount, t.fee);
    assert Purses(ns)[ID_GENESIS].wallet == Purse(ns[ID_GENESIS]) && ID_GENESIS in Purses(ns) by {
      PurseAt(ns, ID_GENESIS);
    }
    SealedIsSigned(tx, Purses(ns), block.slotLeader, ns[ID_GENESIS]);
    OpeningHandled(t, ns, ContextOf(Program(), l, w), to, amount);
  }

  lemma PurseAt(ns: map<Id, int>, id: Id)
    requires id in ns
    ensures id in Purses(ns) && Purses(ns)[id] == Account.Account(id, Purse(ns[id]), 0)
  {
  }

  lemma FoundingReads(t: Terms)
    requires t.Fair()
    ensures Program().genesisMetaOf(Founding(t).meta) == Some(GenesisMeta(t))
    ensures Program().decode(Sealed(Founding(t))) == Some(Founding(t)) && Sealed(Founding(t)).recordType == T_GENESIS
    ensures Sealed(Founding(t)).signatures == SIGNED && TxFits(Founding(t)) && |Founding(t).meta| <= 1000
  {
    hide UserAccountFits, UserAccountBytes, UserAccountSmall, GenesisMetaBytes, GenesisMetaFromBytes, Sealed;
    var m := GenesisMeta(t);
    PurseFits(0);
    assert GenesisMetaFits(m);
    GenesisMetaRoundTrip(m);
    GenesisMetaLength(m);
    PayloadReads(0);
    SealedReads(Founding(t));
  }

  const BARE := Initial(Ouroboros.Schedule(0, 0, 0))

  /** The state behind the founding record, and behind the whole block. */
  function Founded(t: Terms): World {
    World(Purses(map[ID_GENESIS := 0]), Some(t.Config()), Ouroboros.Consensus(t.Slots(), map[], None))
  }

  function Opened(t: Terms): map<Id, int> {
    map[ID_GENESIS := -INITIAL_TOKEN_SUPPLY, ID_FEE := 3 * t.fee, ID_RESERVE := INITIAL_TOKEN_SUPPLY - 3 * t.fee, ID_RECYCLE := 0]
  }

  lemma FoundingApplies(t: Terms, block: Block)
    requires t.Fair() && block.index == 0 && block.slotLeader == 0
    ensures ProcessRecord(Program(), BARE.ledger, BARE.world, Sealed(Founding(t)), block, true) == (Founded(t), Done)
  {
    hide Binary, Sealed;
    FoundingReads(t);
    assert Purses(map[ID_GENESIS := 0]) == map[ID_GENESIS := Account.Account(ID_GENESIS, Purse(0), 0)];
  }

  lemma OpeningsApply(t: Terms, block: Block)
    requires t.Fair() && block == Genesis(t).block
    ensures ProcessRecords(Program(), BARE.ledger, BARE.world, block, 0, true)
         == (Founded(t).(accounts := Purses(Opened(t))), Done)
  {
    hide Binary, Sealed, ProcessRecord, Purses, Opening;
    var l, w := BARE.ledger, Founded(t);
    FoundingApplies(t, block);
    var n1 := map[ID_GENESIS := 0];
    var n2 := Moved(n1, ID_GENESIS, ID_FEE, 0, t.fee);
    var n3 := Moved(n2, ID_GENESIS, ID_RESERVE, INITIAL_TOKEN_SUPPLY - 3 * t.fee, t.fee);
    var n4 := Moved(n3, ID_GENESIS, ID_RECYCLE, 0, t.fee);
    OpeningApplies(t, n1, w, l, ID_FEE, 0, block);
    OpeningApplies(t, n2, w.(accounts := Purses(n2)), l, ID_RESERVE, INITIAL_TOKEN_SUPPLY - 3 * t.fee, block);
    OpeningApplies(t, n3, w.(accounts := Purses(n3)), l, ID_RECYCLE, 0, block);
    assert n4 == Opened(t);
    NextRecord(Program(), l, BARE.world, block, 0);
    NextRecord(Program(), l, w, block, 1);
    NextRecord(Program(), l, w.(accounts := Purses(n2)), block, 2);
    NextRecord(Program(), l, w.(accounts := Purses(n3)), block, 3);
  }

  lemma NextRecord(codec: Codec, l: Ledger, w: World, block: Block, i: nat)
    requires i < |block.records| && ProcessRecord(codec, l, w, block.records[i], block, true).1.Done?
    ensures ProcessRecords(codec, l, w, block, i, true)
         == ProcessRecords(codec, l, ProcessRecord(codec, l, w, block.records[i], block, true).0, block, i + 1, true)
  {
    hide ProcessRecord;
  }

  lemma GenesisIsValid(t: Terms)
    requires t.Fair()
    ensures ValidateGenesisBlock(Program(), Genesis(t)).Done?
  {
    hide Binary, Sealed, Payload, MinFeeForTx;
    FoundingReads(t);
    var reserve := INITIAL_TOKEN_SUPPLY - 3 * t.fee;
    OpeningReads(ID_FEE, 0, t.fee);
    OpeningReads(ID_RESERVE, reserve, t.fee);
    OpeningReads(ID_RECYCLE, 0, t.fee);
    FlatFee(t, Opening(ID_FEE, 0, t.fee));
    FlatFee(t, Opening(ID_RESERVE, reserve, t.fee));
    FlatFee(t, Opening(ID_RECYCLE, 0, t.fee));
    PayloadReads(0);
  }

  /** The chain behind its genesis block. */
  function Boot(t: Terms): ChainState
    requires t.Fair()
  {
    ChainState(Ledger.Ledger(0, [Genesis(t)]), Founded(t).(accounts := Purses(Opened(t))), Checkpoint(0, 0))
  }

  /** A new chain accepts the genesis block. */
  lemma Boots(t: Terms, now: int)
    requires t.Fair()
    ensures AddBlock(Program(), BARE, Genesis(t), now) == (Boot(t), Done)
    ensures Booted(Program(), Boot(t), BARE.world.consensus.schedule, Genesis(t), now)
    ensures BaseInvariant(Boot(t))
  {
    hide Binary, Sealed, ProcessRecords, ValidateGenesisBlock, Purses, Linked, Orderly;
    GenesisIsValid(t);
    OpeningsApply(t, Genesis(t).block);
    assert [] + [Genesis(t)] == [Genesis(t)];
    BootEstablishesBase(Program(), Boot(t), BARE.world.consensus.schedule, Genesis(t), now);
  }

  // ----- further blocks -----

  /** Ready for a block: slots of a second each, and someone to lead. */
  ghost predicate Live(st: ChainState) {
    var slots := st.world.consensus.schedule;
    BaseInvariant(st) && slots.genesisTime == 0 && slots.slotDuration == 1 && slots.slotsPerEpoch > 0 && st.world.consensus.stakes != map[]
  }

  function Started(t: Terms): ChainState
    requires t.Fair()
  {
    Boot(t).(world := RefreshStakes(Boot(t).world, 0))
  }

  lemma StartedIsLive(t: Terms)
    requires t.Fair()
    ensures Live(Started(t)) && Started(t).world.accounts == Purses(Opened(t)) && Started(t).world.config == Some(t.Config())
    ensures Started(t).world.consensus.lastUpdateEpoch == Some(0) && Started(t).world.consensus.schedule == t.Slots()
  {
    hide Binary, Sealed, Genesis, Purses, Linked, Orderly;
    Boots(t, 0);
    PurseAt(Opened(t), ID_RESERVE);
    var b := Purses(Opened(t));
    assert ID_RESERVE in StakesOf(b);
  }

  /** The reserve's block in this slot. */
  function Follow(st: ChainState, slot: nat, records: seq<Record>): ChainNode
    requires st.ledger.nodes != []
  {
    var last := st.ledger.nodes[|st.ledger.nodes| - 1];
    var block := Block(last.block.index + 1, slot, records, last.hash, 0, slot, ID_RESERVE,
                       last.block.txIndex + |last.block.records|);
    ChainNode(block, Program().hashOf(block))
  }

  lemma FollowsStart(t: Terms, slot: nat, records: seq<Record>)
    requires t.Fair()
    ensures Started(t).ledger.nodes != [] && Started(t).ledger.Next() == 1
    ensures var block := Follow(Started(t), slot, records).block; block.index == 1 && block.slotLeader == ID_RESERVE && block.slot == slot
    ensures Follow(Started(t), slot, records).block.records == records
  {
  }

  lemma FollowValid(st: ChainState, slot: nat, records: seq<Record>, now: int, deadline: nat)
    requires Live(st) && st.ledger.nodes[|st.ledger.nodes| - 1].block.slot < slot <= INT64_MAX && st.world.config.Some?
    requires MaxBlockIdForRenewal(st.ledger, st.world.config, st.checkpoint, st.ledger.Next(), now) == Ok(deadline)
    requires WithinLimit(st.world.config.value, records) && KeysDistinct(Program(), records)
    requires RenewalsComplete(Program(), st.world.accounts, deadline, records)
    ensures var node := Follow(st, slot, records);
      && AtTip(st, node) && node.block.index == st.ledger.Next() && node.block.index != 0
      && ShouldUseStrictMode(st.checkpoint, node.block.index) && ValidateBlock(Program(), st, node, true, now).Done?
  {
    hide WithinLimit, KeysDistinct, RenewalsComplete, MaxBlockIdForRenewal, Linked, Orderly;
    var l := st.ledger;
    var node := Follow(st, slot, records);
    assert l.At(l.Next() - 1).index == l.Next() - 1 by {
      TipNumber(l);
    }
    FollowContinues(st, slot, records);
    AlwaysStrict(st, node);
    assert ValidateStrict(Program(), l, st.world.accounts, st.world.config, st.world.consensus, st.checkpoint, node.block, now).Done?;
  }

  /** A block that validation lets pass: its records decide. */
  lemma FollowOffered(st: ChainState, slot: nat, records: seq<Record>, now: int, deadline: nat)
    requires Live(st) && st.ledger.nodes[|st.ledger.nodes| - 1].block.slot < slot <= INT64_MAX && st.world.config.Some?
    requires MaxBlockIdForRenewal(st.ledger, st.world.config, st.checkpoint, st.ledger.Next(), now) == Ok(deadline)
    requires WithinLimit(st.world.config.value, records) && KeysDistinct(Program(), records)
    requires RenewalsComplete(Program(), st.world.accounts, deadline, records)
    ensures var node := Follow(st, slot, records); var (next, s) := AddBlock(Program(), st, node, now);
      var (w, r) := ProcessRecords(Program(), st.ledger, st.world, node.block, 0, true);
      && AtTip(st, node) && node.block.index == st.ledger.Next()
      && (r.Done? <==> s.Done?) && next.world == w
      && (s.Done? ==> next.ledger == Appended(st.ledger, node) && next.checkpoint == Rotate(st.ledger, w.config, st.checkpoint, node.block.index, now))
      && (s.Failed? ==> next.ledger == st.ledger && next.checkpoint == st.checkpoint)
  {
    hide ProcessRecords, WithinLimit, KeysDistinct, RenewalsComplete, MaxBlockIdForRenewal, Linked, Orderly, Rotate, Follow, ValidateBlock;
    FollowValid(st, slot, records, now, deadline);
    var node := Follow(st, slot, records);
    ValidDecides(st, node, now);
    var r := ProcessRecords(Program(), st.ledger, st.world, node.block, 0, true).1;
    assert r.Done? || r.Failed?;
  }

  lemma ValidDecides(st: ChainState, node: ChainNode, now: int)
    requires node.block.index != 0 && ShouldUseStrictMode(st.checkpoint, node.block.index) && ValidateBlock(Program(), st, node, true, now).Done?
    ensures var (w, r) := ProcessRecords(Program(), st.ledger, st.world, node.block, 0, true);
      AddBlock(Program(), st, node, now) ==
        if r.Failed? then (st.(world := w), Failed(Error.BlockValidation))
        else (ChainState(Appended(st.ledger, node), w, Rotate(st.ledger, w.config, st.checkpoint, node.block.index, now)), Done)
  {
    hide ProcessRecords, ValidateBlock, Rotate, Binary;
  }

  lemma FollowAccepted(st: ChainState, slot: nat, records: seq<Record>, now: int, deadline: nat)
    requires Live(st) && st.ledger.nodes[|st.ledger.nodes| - 1].block.slot < slot <= INT64_MAX && st.world.config.Some?
    requires MaxBlockIdForRenewal(st.ledger, st.world.config, st.checkpoint, st.ledger.Next(), now) == Ok(deadline)
    requires WithinLimit(st.world.config.value, records) && KeysDistinct(Program(), records)
    requires RenewalsComplete(Program(), st.world.accounts, deadline, records)
    requires ProcessRecords(Program(), st.ledger, st.world, Follow(st, slot, records).block, 0, true).1.Done?
    ensures var node := Follow(st, slot, records); var (next, s) := AddBlock(Program(), st, node, now);
      && AtTip(st, node) && node.block.index == st.ledger.Next()
      && s.Done? && next.ledger == Appended(st.ledger, node)
      && next.world == ProcessRecords(Program(), st.ledger, st.world, node.block, 0, true).0
      && next.checkpoint == Rotate(st.ledger, next.world.config, st.checkpoint, node.block.index, now)
  {
    hide *;
    FollowOffered(st, slot, records, now, deadline);
  }

  lemma TipNumber(l: Ledger)
    requires Linked(l) && l.start == 0 && l.nodes != []
    ensures l.At(l.Next() - 1).index == l.Next() - 1
  {
  }

  lemma FollowContinues(st: ChainState, slot: nat, records: seq<Record>)
    requires BaseInvariant(st)
    ensures CheckSequence(st.ledger, Follow(st, slot, records).block).Done?
  {
    TipNumber(st.ledger);
  }

  // ----- a block of one record -----

  /** The transaction has no idempotency key, fits its record, and its signer holds a purse. */
  predicate Plain(tx: TypedTx, b: Accounts) {
    && TxFits(tx) && |tx.meta| <= 1000 && !tx.TxGenesis? && !tx.TxConfig? && IdempotencyOf(tx).1.idempotentId == 0
    && SignerOf(tx, ID_RESERVE) in b
    && var w := b[SignerOf(tx, ID_RESERVE)].wallet; w.publicKeys == KEYS && w.minSignatures == 2 && w.keyType == TK_ED25519
  }

  /** Keys alone decide whether signatures are good. */
  lemma PlainIsSigned(tx: TypedTx, b: Accounts)
    requires Plain(tx, b)
    ensures ValidateTxSignatures(Program(), b, Sealed(tx), ID_RESERVE, true).Done?
  {
    hide Binary, Sealed, TxFits;
    SealedReads(tx);
    var a := b[SignerOf(tx, ID_RESERVE)];
    SignedWell(Sealed(tx).data, a.(wallet := Purse(0)), 0);
    assert CheckSignatures(Program(), Sealed(tx).data, SIGNED, a) == CheckSignatures(Program(), Sealed(tx).data, SIGNED, a.(wallet := Purse(0)));
  }

  lemma PlainApplies(l: Ledger, w: World, tx: TypedTx, block: Block)
    requires Plain(tx, w.accounts) && block.slotLeader == ID_RESERVE
    ensures var (b, s) := Handle(ContextOf(Program(), l, w), tx, w.accounts, map[], block.index, true);
      ProcessRecord(Program(), l, w, Sealed(tx), block, true) == (w.(accounts := b), s)
  {
    hide Binary, Sealed, TxFits, Handle, ValidateTxSignatures;
    PlainIsSigned(tx, w.accounts);
    SealedReads(tx);
  }

  /** What the first block after the genesis block may hold without further ado. */
  lemma FirstBlockAccepted(t: Terms, records: seq<Record>)
    requires t.Fair() && (t.maxTx == 0 || |records| <= t.maxTx) && KeysDistinct(Program(), records)
    requires forall i | 0 <= i < |records| :: RenewalAllowed(Program(), Purses(Opened(t)), 0, records[i])
    requires ProcessRecords(Program(), Started(t).ledger, Started(t).world, Follow(Started(t), 1, records).block, 0, true).1.Done?
    ensures var st := Started(t); var node := Follow(st, 1, records); var (next, s) := AddBlock(Program(), st, node, 1);
      && Live(st) && st.world.accounts == Purses(Opened(t)) && st.world.config == Some(t.Config())
      && AtTip(st, node) && node.block.index == 1 && s.Done? && next.ledger == Appended(st.ledger, node)
      && next.world == ProcessRecords(Program(), st.ledger, st.world, node.block, 0, true).0
  {
    hide Binary, ProcessRecords, KeysDistinct, RenewalAllowed, Purses, Opened, Live;
    StartedIsLive(t);
    LiveBelow(Started(t));
    FollowAccepted(Started(t), 1, records, 1, 0);
  }

  lemma LiveIsBased(st: ChainState)
    requires Live(st)
    ensures BaseInvariant(st) && st.ledger.nodes != []
  {
  }

  lemma LiveBelow(st: ChainState)
    requires Live(st)
    ensures st.ledger.nodes != []
  {
  }

  lemma OneRecordApplied(t: Terms, tx: TypedTx)
    requires t.Fair() && Plain(tx, Purses(Opened(t)))
    ensures var st := Started(t); var node := Follow(st, 1, [Sealed(tx)]);
      var (b, s) := Handle(ContextOf(Program(), st.ledger, st.world), tx, st.world.accounts, map[], 1, true);
      ProcessRecords(Program(), st.ledger, st.world, node.block, 0, true) == (st.world.(accounts := b), s)
  {
    hide Binary, Sealed, Plain, Handle, ProcessRecord, Purses, Opened, Live;
    StartedIsLive(t);
    var st := Started(t);
    PlainApplies(st.ledger, st.world, tx, Follow(st, 1, [Sealed(tx)]).block);
  }

  /** A block of one such record is accepted if its handler accepts it. */
  lemma OneRecordAccepted(t: Terms, tx: TypedTx)
    requires t.Fair() && Plain(tx, Purses(Opened(t)))
    requires (tx.TxRenewal? || tx.TxEndUser?) ==> tx.walletId in Opened(t)
    requires Handle(ContextOf(Program(), Started(t).ledger, Started(t).world), tx, Purses(Opened(t)), map[], 1, true).1.Done?
    ensures var st := Started(t); var node := Follow(st, 1, [Sealed(tx)]); var (next, s) := AddBlock(Program(), st, node, 1);
      && Live(st) && st.world.accounts == Purses(Opened(t)) && AtTip(st, node) && s.Done? && next.ledger == Appended(st.ledger, node)
      && next.world.config == Some(t.Config())
      && next.world.accounts == Handle(ContextOf(Program(), st.ledger, st.world), tx, st.world.accounts, map[], 1, true).0
  {
    hide Binary, Sealed, Plain, Handle, ProcessRecords, AddBlock, Opened, Live, Started;
    StartedIsLive(t);
    PlainReads(tx, Purses(Opened(t)));
    OneRecordApplied(t, tx);
    FirstBlockAccepted(t, [Sealed(tx)]);
  }

  lemma PlainReads(tx: TypedTx, b: Accounts)
    requires Plain(tx, b)
    ensures Program().decode(Sealed(tx)) == Some(tx)
  {
    hide Binary, Sealed, TxFits;
    SealedReads(tx);
  }
}
