/** Every token nets to zero over all accounts, in every state of every run: what is in circulation is exactly what
    its issuer owes. */
module Supply {
  import opened Numbers
  import opened Outcomes
  import opened ChainTypes
  import opened Bank
  import opened BankTotals
  import opened LedgerView
  import opened TxFees
  import opened TxHandlers
  import opened BlockValidation
  import opened ChainSpec
  import opened Conservation
  import opened BalanceBounds
  import opened Runs
  import Ouroboros

  ghost predicate NetsToZero(b: Accounts) {
    forall t :: Total(b, t) == 0
  }

  ghost predicate SupplyInvariant(b: Accounts) {
    Bounded(b) && NetsToZero(b)
  }

  /** What the supply needs of a record: that it conserves every token, that no update or renewal takes its account below
      zero, and that no ended account holds a token that is owed at the bottom of the 64-bit range. */
  predicate Ordinary(b: Accounts, tx: TypedTx) {
    Conserving(b, tx) &&
    match tx
    case TxUserUpdate(id, fee, _, _) => id == ID_GENESIS || fee <= BalanceOf(b, id, ID_GENESIS)
    case TxRenewal(id, fee, _) => id == ID_GENESIS || fee <= BalanceOf(b, id, ID_GENESIS)
    case TxEndUser(id, _, _) => id in b ==> forall t | t in b[id].wallet.balances :: BalanceOf(b, t, t) > INT64_MIN
    case _ => true
  }

  lemma OrdinaryConserves(b: Accounts, tx: TypedTx)
    requires Ordinary(b, tx)
    ensures Conserving(b, tx)
  {
  }

  lemma HandleKeepsBounds(cx: Context, tx: TypedTx, b: Accounts, existing: Accounts, blockId: nat)
    requires !tx.TxGenesis? && Handle(cx, tx, b, existing, blockId, true).1.Done?
    requires DecodesInt64(cx.codec) && SupplyInvariant(b) && Ordinary(b, tx)
    ensures Bounded(Handle(cx, tx, b, existing, blockId, true).0)
  {
    hide Bounded;
    hide Transfer;
    hide ReplaceAndPay;
    hide WriteOff;
    hide VerifyBalance;
    hide MinFeeForTx;
    hide MinFeeForAccount;
    hide NetsToZero;
    match tx
    case TxDefault(token, from, to, amount, fee, _, _) =>
      TransferKeepsBounds(b, from, to, token, amount, fee);
    case TxNewUser(from, to, amount, fee, meta, _) =>
      var wallet := cx.codec.userAccountOf(meta).value.wallet.(balances := map[]);
      var a := Account.Account(to, wallet, blockId);
      AddKeepsBounds(b, a);
      TransferKeepsBounds(b[to := a], from, to, ID_GENESIS, amount, fee);
    case TxConfig(_, meta, _) =>
      ReplaceWithoutFee(b, ID_GENESIS, cx.codec.genesisMetaOf(meta).value.genesis.wallet, blockId);
      ReplaceKeepsBounds(b, ID_GENESIS, cx.codec.genesisMetaOf(meta).value.genesis.wallet, blockId, 0);
    case TxUserUpdate(id, fee, meta, _) =>
      ReplaceKeepsBounds(b, id, cx.codec.userAccountOf(meta).value.wallet, blockId, fee);
    case TxRenewal(id, fee, meta) =>
      if id == ID_GENESIS {
        ReplaceKeepsBounds(b, id, cx.codec.genesisMetaOf(meta).value.genesis.wallet, blockId, fee);
      } else {
        ReplaceKeepsBounds(b, id, cx.codec.userAccountOf(meta).value.wallet, blockId, fee);
      }
    case TxEndUser(id, _, _) =>
      WriteOffDoneHas(b, id);
      if id == ID_RECYCLE {
        RecycleEndsBounded(b);
      } else {
        assert forall t | t in b[id].wallet.balances :: Total(b, t) == 0;
        WriteOffKeepsBounds(b, id);
      }
  }

  lemma RecycleEndsBounded(b: Accounts)
    requires Bounded(b)
    ensures Bounded(WriteOff(b, ID_RECYCLE).0)
  {
    hide BoundedWallet, Absorb;
  }

  lemma ReplaceWithoutFee(b: Accounts, id: Id, wallet: Wallet, blockId: nat)
    ensures ReplaceAndPay(b, id, wallet, blockId, 0) == (b[id := Account.Account(id, wallet, blockId)], Done)
  {
  }

  lemma WriteOffDoneHas(b: Accounts, id: Id)
    requires SupplyInvariant(b)
    ensures WriteOff(b, id).1.Done? ==> id in b
    ensures id in b ==> forall t | t in b[id].wallet.balances :: Total(b, t) == 0
  {
  }

  lemma AddKeepsBounds(b: Accounts, a: Account)
    requires Bounded(b) && a.wallet.balances == map[]
    ensures Bounded(b[a.id := a])
  {
  }

  /** An accepted ordinary record keeps the supply invariant. */
  lemma RecordKeepsSupply(cx: Context, tx: TypedTx, b: Accounts, existing: Accounts, blockId: nat)
    requires !tx.TxGenesis? && Handle(cx, tx, b, existing, blockId, true).1.Done?
    requires DecodesInt64(cx.codec) && SupplyInvariant(b) && Ordinary(b, tx)
    ensures SupplyInvariant(Handle(cx, tx, b, existing, blockId, true).0)
  {
    hide Handle;
    hide Bounded;
    hide Conserving;
    OrdinaryConserves(b, tx);
    ConservesIff(cx, tx, b, existing, blockId);
    var after := Handle(cx, tx, b, existing, blockId, true).0;
    forall t
      ensures Total(after, t) == 0
    {
      assert Total(after, t) == Total(b, t);
    }
    HandleKeepsBounds(cx, tx, b, existing, blockId);
  }

  // ----- blocks and runs -----

  predicate OrdinaryRecord(codec: Codec, b: Accounts, rec: Record) {
    codec.decode(rec).Some? ==> Ordinary(b, codec.decode(rec).value)
  }

  /** Every record of the block is ordinary for the accounts it meets. */
  predicate OrdinaryFrom(codec: Codec, l: Ledger, w: World, block: Block, i: nat)
    requires i <= |block.records|
    decreases |block.records| - i
  {
    i == |block.records| ||
    (OrdinaryRecord(codec, w.accounts, block.records[i]) &&
     OrdinaryFrom(codec, l, ProcessRecord(codec, l, w, block.records[i], block, true).0, block, i + 1))
  }

  predicate NotGenesis(codec: Codec, rec: Record) {
    codec.decode(rec).Some? ==> !codec.decode(rec).value.TxGenesis?
  }

  lemma ProcessKeepsSupply(codec: Codec, l: Ledger, w: World, rec: Record, block: Block)
    requires DecodesInt64(codec) && SupplyInvariant(w.accounts) && OrdinaryRecord(codec, w.accounts, rec)
    requires block.index != 0 || NotGenesis(codec, rec)
    requires ProcessRecord(codec, l, w, rec, block, true).1.Done?
    ensures SupplyInvariant(ProcessRecord(codec, l, w, rec, block, true).0.accounts)
  {
    hide SupplyInvariant;
    hide Handle;
    hide Idempotency;
    hide ValidateTxSignatures;
    RecordKeepsSupply(ContextOf(codec, l, w), codec.decode(rec).value, w.accounts, map[], block.index);
  }

  lemma {:induction false} RecordsKeepSupply(codec: Codec, l: Ledger, w: World, block: Block, i: nat)
    requires DecodesInt64(codec) && i <= |block.records| && SupplyInvariant(w.accounts)
    requires block.index != 0 || forall j | i <= j < |block.records| :: NotGenesis(codec, block.records[j])
    requires OrdinaryFrom(codec, l, w, block, i) && ProcessRecords(codec, l, w, block, i, true).1.Done?
    ensures SupplyInvariant(ProcessRecords(codec, l, w, block, i, true).0.accounts)
    decreases |block.records| - i
  {
    hide ProcessRecord;
    hide SupplyInvariant;
    hide OrdinaryRecord;
    hide NotGenesis;
    if i < |block.records| {
      ProcessKeepsSupply(codec, l, w, block.records[i], block);
      RecordsKeepSupply(codec, l, ProcessRecord(codec, l, w, block.records[i], block, true).0, block, i + 1);
    }
  }

  predicate OrdinaryAlong(codec: Codec, st: ChainState, events: seq<Event>)
    decreases |events|
  {
    events == [] ||
    (&& (events[0].Offer? ==> OrdinaryFrom(codec, st.ledger, st.world, events[0].node.block, 0))
     && OrdinaryAlong(codec, Step(codec, st, events[0]).0, events[1..]))
  }

  lemma OfferKeepsSupply(codec: Codec, st: ChainState, node: ChainNode, now: int)
    requires DecodesInt64(codec) && BaseInvariant(st) && SupplyInvariant(st.world.accounts) && AtTip(st, node)
    requires AddBlock(codec, st, node, now).1.Done? && OrdinaryFrom(codec, st.ledger, st.world, node.block, 0)
    ensures SupplyInvariant(AddBlock(codec, st, node, now).0.world.accounts)
  {
    hide AddBlock;
    hide SupplyInvariant;
    OfferUnfolds(codec, st, node, now);
    RecordsKeepSupply(codec, st.ledger, st.world, node.block, 0);
  }

  /** In every state of every run of ordinary records every token nets to zero, every balance fits in 64 bits, and
      only an issuer owes, in its own token. */
  lemma {:induction false} SupplyHolds(codec: Codec, st: ChainState, events: seq<Event>)
    requires DecodesInt64(codec) && BaseInvariant(st) && SupplyInvariant(st.world.accounts)
    requires Accepted(codec, st, events) && OrdinaryAlong(codec, st, events)
    ensures SupplyInvariant(Run(codec, st, events).0.world.accounts)
    decreases |events|
  {
    hide AddBlock;
    hide SupplyInvariant;
    hide BaseInvariant;
    hide AtTip;
    hide OrdinaryFrom;
    if events != [] {
      if events[0].Offer? {
        OfferKeepsSupply(codec, st, events[0].node, events[0].now);
        OfferKeepsBase(codec, st, events[0].node, events[0].now);
      } else {
        RefreshKeepsBase(st, events[0].epoch);
      }
      SupplyHolds(codec, Step(codec, st, events[0]).0, events[1..]);
    }
  }

  // ----- the genesis block -----

  /** The genesis account has paid `cost` for the new account `to`, and no token total has moved. */
  ghost predicate Paid(b: Accounts, after: Accounts, to: Id, cost: int) {
    && Bounded(after) && after.Keys == b.Keys + {to}
    && (forall t :: Total(after, t) == Total(b, t))
    && BalanceOf(after, ID_GENESIS, ID_GENESIS) == BalanceOf(b, ID_GENESIS, ID_GENESIS) - cost >= INT64_MIN
  }

  lemma GenesisPays(b: Accounts, to: Id, wallet: Wallet, amount: u64, fee: u64)
    requires Bounded(b) && ID_GENESIS in b && to !in b && wallet.balances == map[]
    requires Transfer(b[to := Account.Account(to, wallet, 0)], ID_GENESIS, to, ID_GENESIS, amount, fee).1.Done?
    ensures Paid(b, Transfer(b[to := Account.Account(to, wallet, 0)], ID_GENESIS, to, ID_GENESIS, amount, fee).0, to,
                 amount + fee)
  {
    var a := Account.Account(to, wallet, 0);
    var added := b[to := a];
    AddKeepsBounds(b, a);
    TransferKeepsBounds(added, ID_GENESIS, to, ID_GENESIS, amount, fee);
    GenesisPaysBalance(added, to, amount, fee);
    forall t
      ensures Total(Transfer(added, ID_GENESIS, to, ID_GENESIS, amount, fee).0, t) == Total(b, t)
    {
      TotalPut(b, a, to, t);
      TransferTotal(added, ID_GENESIS, to, ID_GENESIS, amount, fee, t);
    }
  }

  lemma GenesisPaysBalance(b: Accounts, to: Id, amount: u64, fee: u64)
    requires Bounded(b) && ID_GENESIS in b && to != ID_GENESIS
    requires Transfer(b, ID_GENESIS, to, ID_GENESIS, amount, fee).1.Done?
    ensures var after := Transfer(b, ID_GENESIS, to, ID_GENESIS, amount, fee).0;
      && after.Keys == b.Keys
      && BalanceOf(after, ID_GENESIS, ID_GENESIS) == BalanceOf(b, ID_GENESIS, ID_GENESIS) - amount - fee >= INT64_MIN
  {
  }

  /** One of the three account-creating records of the genesis block. */
  lemma GenesisRecordPays(codec: Codec, config: BlockChainConfig, l: Ledger, w: World, rec: Record, block: Block, to: Id)
    requires block.index == 0 && Bounded(w.accounts) && ID_GENESIS in w.accounts && to != ID_GENESIS
    requires GenesisNewUser(codec, config, rec, to).Ok?
    requires ProcessRecord(codec, l, w, rec, block, true).1.Done?
    ensures var tx := GenesisNewUser(codec, config, rec, to).value;
      Paid(w.accounts, ProcessRecord(codec, l, w, rec, block, true).0.accounts, to, tx.amount + tx.fee)
  {
    hide Bounded;
    hide Paid;
    hide Transfer;
    hide MinFeeForTx;
    hide CheckFee;
    hide VerifySpendingPower;
    var tx := codec.decode(rec).value;
    GenesisPays(w.accounts, to, codec.userAccountOf(tx.meta).value.wallet.(balances := map[]), tx.amount, tx.fee);
  }

  /** A genesis wallet that starts with nothing. */
  predicate StartsEmpty(codec: Codec, genesis: ChainNode)
    requires |genesis.block.records| == 4
  {
    var tx := codec.decode(genesis.block.records[0]);
    tx.Some? && tx.value.TxGenesis? && codec.genesisMetaOf(tx.value.meta).Some? &&
    var balances := codec.genesisMetaOf(tx.value.meta).value.genesis.wallet.balances;
    forall t | t in balances :: balances[t] == 0
  }

  lemma OneEmptyAccount(wallet: Wallet)
    requires forall t | t in wallet.balances :: wallet.balances[t] == 0
    ensures var b := map[ID_GENESIS := Account.Account(ID_GENESIS, wallet, 0)];
      Bounded(b) && NetsToZero(b) && BalanceOf(b, ID_GENESIS, ID_GENESIS) == 0
  {
    var b := map[ID_GENESIS := Account.Account(ID_GENESIS, wallet, 0)];
    forall t
      ensures Total(b, t) == 0
    {
      TotalRemove(b, ID_GENESIS, t);
      assert b - {ID_GENESIS} == map[];
    }
  }

  lemma FourAccounts(b: Accounts, t: Id)
    requires b.Keys == {ID_GENESIS, ID_FEE, ID_RESERVE, ID_RECYCLE}
    ensures Total(b, t) == BalanceOf(b, ID_GENESIS, t) + BalanceOf(b, ID_FEE, t) + BalanceOf(b, ID_RESERVE, t)
                         + BalanceOf(b, ID_RECYCLE, t)
  {
    TotalRemove(b, ID_GENESIS, t);
    TotalRemove(b - {ID_GENESIS}, ID_FEE, t);
    TotalRemove(b - {ID_GENESIS} - {ID_FEE}, ID_RESERVE, t);
    TotalRemove(b - {ID_GENESIS} - {ID_FEE} - {ID_RESERVE}, ID_RECYCLE, t);
    assert b - {ID_GENESIS} - {ID_FEE} - {ID_RESERVE} - {ID_RECYCLE} == map[];
  }

  /** After an accepted genesis block whose genesis wallet starts empty, the genesis account owes exactly the initial
      supply, and the fee, reserve and recycle accounts hold exactly that between them. */
  lemma GenesisIssuesSupply(codec: Codec, st: ChainState, schedule: Ouroboros.Schedule, genesis: ChainNode, now: int)
    requires Booted(codec, st, schedule, genesis, now)
    requires |genesis.block.records| == 4 && StartsEmpty(codec, genesis)
    ensures SupplyInvariant(st.world.accounts)
    ensures st.world.accounts.Keys == {ID_GENESIS, ID_FEE, ID_RESERVE, ID_RECYCLE}
    ensures BalanceOf(st.world.accounts, ID_GENESIS, ID_GENESIS) == -INITIAL_TOKEN_SUPPLY
    ensures BalanceOf(st.world.accounts, ID_FEE, ID_GENESIS) + BalanceOf(st.world.accounts, ID_RESERVE, ID_GENESIS)
          + BalanceOf(st.world.accounts, ID_RECYCLE, ID_GENESIS) == INITIAL_TOKEN_SUPPLY
  {
    hide ProcessRecord;
    hide ProcessRecords;
    hide ValidateGenesisBlock;
    hide GenesisNewUser;
    hide Booted;
    hide Bounded;
    hide Paid;
    hide BalanceOf;
    hide NetsToZero;
    var l, block := Initial(schedule).ledger, genesis.block;
    var w1 := BootUnfolds(codec, st, schedule, genesis, now);
    var config := w1.config.value;
    GenesisRecordsChecked(codec, genesis);
    OneEmptyAccount(w1.accounts[ID_GENESIS].wallet);
    var w2, w3 := ThreeRecords(codec, l, w1, block);
    var fee := GenesisNewUser(codec, config, block.records[1], ID_FEE).value;
    var reserve := GenesisNewUser(codec, config, block.records[2], ID_RESERVE).value;
    var recycle := GenesisNewUser(codec, config, block.records[3], ID_RECYCLE).value;
    GenesisRecordPays(codec, config, l, w1, block.records[1], block, ID_FEE);
    PaidKeeps(w1.accounts, w2.accounts, ID_FEE, fee.amount + fee.fee);
    GenesisRecordPays(codec, config, l, w2, block.records[2], block, ID_RESERVE);
    PaidKeeps(w2.accounts, w3.accounts, ID_RESERVE, reserve.amount + reserve.fee);
    GenesisRecordPays(codec, config, l, w3, block.records[3], block, ID_RECYCLE);
    PaidKeeps(w3.accounts, st.world.accounts, ID_RECYCLE, recycle.amount + recycle.fee);
    var debt := reserve.amount + fee.fee + reserve.fee + recycle.fee;
    assert BalanceOf(st.world.accounts, ID_GENESIS, ID_GENESIS) == -debt;
    FourAccounts(st.world.accounts, ID_GENESIS);
    ZeroTotal(st.world.accounts, ID_GENESIS);
  }

  lemma ZeroTotal(b: Accounts, t: Id)
    requires NetsToZero(b)
    ensures Total(b, t) == 0
  {
  }

  lemma PaidKeeps(b: Accounts, after: Accounts, to: Id, cost: int)
    requires Paid(b, after, to, cost)
    ensures Bounded(after) && after.Keys == b.Keys + {to} && (NetsToZero(b) ==> NetsToZero(after))
    ensures BalanceOf(after, ID_GENESIS, ID_GENESIS) == BalanceOf(b, ID_GENESIS, ID_GENESIS) - cost >= INT64_MIN
  {
  }

  lemma ThreeRecords(codec: Codec, l: Ledger, w: World, block: Block) returns (w2: World, w3: World)
    requires |block.records| == 4 && ProcessRecords(codec, l, w, block, 1, true).1.Done?
    ensures ProcessRecord(codec, l, w, block.records[1], block, true) == (w2, Done)
    ensures ProcessRecord(codec, l, w2, block.records[2], block, true) == (w3, Done)
    ensures ProcessRecord(codec, l, w3, block.records[3], block, true)
         == (ProcessRecords(codec, l, w, block, 1, true).0, Done)
  {
    hide ProcessRecord;
    w2 := ProcessRecord(codec, l, w, block.records[1], block, true).0;
    assert ProcessRecords(codec, l, w, block, 1, true) == ProcessRecords(codec, l, w2, block, 2, true);
    w3 := ProcessRecord(codec, l, w2, block.records[2], block, true).0;
    assert ProcessRecords(codec, l, w2, block, 2, true) == ProcessRecords(codec, l, w3, block, 3, true);
    var w4 := ProcessRecord(codec, l, w3, block.records[3], block, true).0;
    assert ProcessRecords(codec, l, w3, block, 3, true) == ProcessRecords(codec, l, w4, block, 4, true);
  }

  /** What the validation of the genesis block says about its three account-creating records. */
  lemma GenesisRecordsChecked(codec: Codec, genesis: ChainNode)
    requires ValidateGenesisBlock(codec, genesis).Done?
    ensures |genesis.block.records| == 4 && genesis.block.index == 0
    ensures codec.decode(genesis.block.records[0]).Some? && codec.decode(genesis.block.records[0]).value.TxGenesis?
    ensures codec.genesisMetaOf(codec.decode(genesis.block.records[0]).value.meta).Some?
    ensures var config := codec.genesisMetaOf(codec.decode(genesis.block.records[0]).value.meta).value.config;
      var fee := GenesisNewUser(codec, config, genesis.block.records[1], ID_FEE);
      var reserve := GenesisNewUser(codec, config, genesis.block.records[2], ID_RESERVE);
      var recycle := GenesisNewUser(codec, config, genesis.block.records[3], ID_RECYCLE);
      && fee.Ok? && reserve.Ok? && recycle.Ok? && fee.value.amount == 0 && recycle.value.amount == 0
      && Wrap(reserve.value.amount + fee.value.fee + reserve.value.fee + recycle.value.fee) == INITIAL_TOKEN_SUPPLY
  {
    hide GenesisNewUser;
  }
}
