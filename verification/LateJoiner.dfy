/** A node that replays the chain loosely from a checkpoint, starting with no accounts, ends up with the accounts of
    the full node. */
module LateJoiner {
  import opened Numbers
  import opened Outcomes
  import opened ChainTypes
  import opened Bank
  import opened LedgerView
  import opened TxFees
  import opened TxHandlers
  import opened TxIdempotency
  import opened BlockValidation
  import opened ChainSpec
  import opened Runs
  import opened CheckpointSafety
  import Ouroboros

  // ----- the relation -----

  /** The fee account may lack fees paid by senders that the late joiner did not know; nothing else differs. */
  predicate SameButNative(l: Account, f: Account) {
    && l.id == f.id && l.blockId == f.blockId
    && l.wallet.(balances := map[]) == f.wallet.(balances := map[])
    && l.wallet.balances - {ID_GENESIS} == f.wallet.balances - {ID_GENESIS}
    && TokenBalance(l.wallet.balances, ID_GENESIS) <= TokenBalance(f.wallet.balances, ID_GENESIS)
  }

  predicate AgreeOn(id: Id, l: Account, f: Account) {
    if id == ID_FEE then SameButNative(l, f) else l == f
  }

  /** Everything the late joiner knows is as the full node knows it. */
  ghost predicate Agrees(l: Accounts, f: Accounts) {
    forall id | id in l :: id in f && AgreeOn(id, l[id], f[id])
  }

  /** The late joiner knows every account but genesis that was set since block `start`. */
  ghost predicate Covers(l: Accounts, f: Accounts, start: nat) {
    forall id | id in f && id != ID_GENESIS && f[id].blockId >= start :: id in l
  }

  // ----- transfers, account by account -----

  /** What a transfer does to account `a` of `id`, whoever else is involved. */
  function Paying(a: Account, id: Id, from: Id, to: Id, token: Id, amount: int, fee: int): Account {
    var debited := if id == from then WithBalance(a, token, TokenBalance(a.wallet.balances, token) - amount) else a;
    var moved := if id == to then WithBalance(debited, token, TokenBalance(a.wallet.balances, token) + amount) else debited;
    if fee > 0 && id == from then
      WithBalance(moved, ID_GENESIS,
        TokenBalance(a.wallet.balances, ID_GENESIS) - (if token == ID_GENESIS then amount else 0) - fee)
    else moved
  }

  function Credited(a: Account, id: Id, fee: int): Account {
    if fee > 0 && id == ID_FEE then WithBalance(a, ID_GENESIS, TokenBalance(a.wallet.balances, ID_GENESIS) + fee) else a
  }

  lemma PaidPointwise(b: Accounts, from: Id, to: Id, token: Id, amount: u64, fee: u64)
    requires from in b && to in b
    ensures var paid := if fee > 0 then ChargeFee(b, from, to, token, amount, fee) else MoveAmount(b, from, to, token, amount);
      && paid.Keys == b.Keys
      && forall id | id in b :: paid[id] == Paying(b[id], id, from, to, token, amount, fee)
  {
    hide WithBalance, TokenBalance;
  }

  lemma TransferPointwise(b: Accounts, from: Id, to: Id, token: Id, amount: u64, fee: u64)
    requires Transfer(b, from, to, token, amount, fee).1.Done?
    ensures from in b && to in b && amount <= INT64_MAX && fee <= INT64_MAX
    ensures var after := Transfer(b, from, to, token, amount, fee).0;
      && after.Keys == b.Keys
      && forall id | id in b :: after[id] == Credited(Paying(b[id], id, from, to, token, amount, fee), id, fee)
  {
    hide VerifySpendingPower, MoveAmount, ChargeFee, WithBalance, TokenBalance, Paying;
    PaidPointwise(b, from, to, token, amount, fee);
  }

  /** A sender's loss to an unknown receiver is what a full transfer takes from it. */
  lemma WithdrawPointwise(tx: TypedTx, b: Accounts)
    requires tx.TxDefault? && tx.fromWalletId in b && tx.toWalletId !in b
    requires tx.amount <= INT64_MAX && tx.fee <= INT64_MAX && WithdrawLoose(tx, b).1.Done?
    ensures WithdrawLoose(tx, b).0.Keys == b.Keys
    ensures forall id | id in b ::
      WithdrawLoose(tx, b).0[id] == Paying(b[id], id, tx.fromWalletId, tx.toWalletId, tx.tokenId, tx.amount, tx.fee)
  {
    if tx.tokenId == ID_GENESIS {
      assert WithBalance(WithBalance(b[tx.fromWalletId], ID_GENESIS,
          BalanceOf(b, tx.fromWalletId, ID_GENESIS) - tx.amount), ID_GENESIS,
          BalanceOf(b, tx.fromWalletId, ID_GENESIS) - tx.amount - tx.fee)
        == WithBalance(b[tx.fromWalletId], ID_GENESIS, BalanceOf(b, tx.fromWalletId, ID_GENESIS) - tx.amount - tx.fee);
    }
  }

  /** A loose transfer does to every known account what the full transfer does, except that the fee account may
      miss the fee. */
  lemma LoosePointwise(tx: TypedTx, b: Accounts)
    requires tx.TxDefault? && tx.amount <= INT64_MAX && tx.fee <= INT64_MAX && TransferLoose(tx, b).1.Done?
    ensures TransferLoose(tx, b).0.Keys == b.Keys
    ensures forall id | id in b ::
      var paid := Paying(b[id], id, tx.fromWalletId, tx.toWalletId, tx.tokenId, tx.amount, tx.fee);
      TransferLoose(tx, b).0[id] == Credited(paid, id, tx.fee) || (id == ID_FEE && TransferLoose(tx, b).0[id] == paid)
  {
    if tx.fromWalletId in b {
      if tx.toWalletId in b {
        TransferPointwise(b, tx.fromWalletId, tx.toWalletId, tx.tokenId, tx.amount, tx.fee);
      } else {
        WithdrawPointwise(tx, b);
        hide WithdrawLoose;
      }
    }
  }

  lemma WithBalanceElsewhere(m: Balances, token: Id, v: int)
    ensures m[token := v] - {ID_GENESIS} == if token == ID_GENESIS then m - {ID_GENESIS} else (m - {ID_GENESIS})[token := v]
  {
  }

  lemma SetAgrees(l: Account, f: Account, token: Id, vl: int, vf: int)
    requires SameButNative(l, f) && (if token == ID_GENESIS then vl <= vf else vl == vf)
    ensures SameButNative(WithBalance(l, token, vl), WithBalance(f, token, vf))
  {
    WithBalanceElsewhere(l.wallet.balances, token, vl);
    WithBalanceElsewhere(f.wallet.balances, token, vf);
  }

  lemma SameCustomBalance(l: Account, f: Account, token: Id)
    requires SameButNative(l, f) && token != ID_GENESIS
    ensures TokenBalance(l.wallet.balances, token) == TokenBalance(f.wallet.balances, token)
  {
    assert TokenBalance(l.wallet.balances - {ID_GENESIS}, token) == TokenBalance(f.wallet.balances - {ID_GENESIS}, token);
  }

  lemma PayingAgrees(id: Id, l: Account, f: Account, from: Id, to: Id, token: Id, amount: int, fee: int)
    requires AgreeOn(id, l, f)
    ensures AgreeOn(id, Paying(l, id, from, to, token, amount, fee), Paying(f, id, from, to, token, amount, fee))
  {
    hide SameButNative;
    if id == ID_FEE {
      var heldL, heldF := TokenBalance(l.wallet.balances, token), TokenBalance(f.wallet.balances, token);
      var nativeL, nativeF := TokenBalance(l.wallet.balances, ID_GENESIS), TokenBalance(f.wallet.balances, ID_GENESIS);
      var taken := if token == ID_GENESIS then amount else 0;
      NativeBelow(l, f);
      if token != ID_GENESIS {
        SameCustomBalance(l, f, token);
      }
      var l1, f1 := l, f;
      if id == from {
        SetAgrees(l, f, token, heldL - amount, heldF - amount);
        l1, f1 := WithBalance(l, token, heldL - amount), WithBalance(f, token, heldF - amount);
      }
      var l2, f2 := l1, f1;
      if id == to {
        SetAgrees(l1, f1, token, heldL + amount, heldF + amount);
        l2, f2 := WithBalance(l1, token, heldL + amount), WithBalance(f1, token, heldF + amount);
      }
      if fee > 0 && id == from {
        SetAgrees(l2, f2, ID_GENESIS, nativeL - taken - fee, nativeF - taken - fee);
      }
    }
  }

  lemma NativeBelow(l: Account, f: Account)
    requires SameButNative(l, f)
    ensures TokenBalance(l.wallet.balances, ID_GENESIS) <= TokenBalance(f.wallet.balances, ID_GENESIS)
  {
  }

  lemma CreditAgrees(id: Id, l: Account, f: Account, fee: int)
    requires AgreeOn(id, l, f)
    ensures AgreeOn(id, Credited(l, id, fee), Credited(f, id, fee))
    ensures id == ID_FEE ==> AgreeOn(id, l, Credited(f, id, fee))
  {
    if id == ID_FEE {
      var nativeL, nativeF := TokenBalance(l.wallet.balances, ID_GENESIS), TokenBalance(f.wallet.balances, ID_GENESIS);
      SetAgrees(l, f, ID_GENESIS, nativeL + fee, nativeF + fee);
      WithBalanceElsewhere(f.wallet.balances, ID_GENESIS, nativeF + fee);
    }
  }

  // ----- one record -----

  /** The two banks after a record that both accepted. */
  ghost predicate StillSimulates(l: Accounts, f: Accounts, start: nat) {
    Agrees(l, f) && Covers(l, f, start)
  }

  lemma TransferSimulates(tx: TypedTx, l: Accounts, f: Accounts, start: nat)
    requires tx.TxDefault? && StillSimulates(l, f, start)
    requires Transfer(f, tx.fromWalletId, tx.toWalletId, tx.tokenId, tx.amount, tx.fee).1.Done?
    requires TransferLoose(tx, l).1.Done?
    ensures StillSimulates(TransferLoose(tx, l).0,
                           Transfer(f, tx.fromWalletId, tx.toWalletId, tx.tokenId, tx.amount, tx.fee).0, start)
  {
    hide TransferLoose;
    hide Transfer;
    hide Paying;
    hide Credited;
    hide AgreeOn;
    TransferPointwise(f, tx.fromWalletId, tx.toWalletId, tx.tokenId, tx.amount, tx.fee);
    LoosePointwise(tx, l);
    forall id | id in l
      ensures AgreeOn(id, TransferLoose(tx, l).0[id],
                      Transfer(f, tx.fromWalletId, tx.toWalletId, tx.tokenId, tx.amount, tx.fee).0[id])
    {
      PayingAgrees(id, l[id], f[id], tx.fromWalletId, tx.toWalletId, tx.tokenId, tx.amount, tx.fee);
      var paidL := Paying(l[id], id, tx.fromWalletId, tx.toWalletId, tx.tokenId, tx.amount, tx.fee);
      var paidF := Paying(f[id], id, tx.fromWalletId, tx.toWalletId, tx.tokenId, tx.amount, tx.fee);
      CreditAgrees(id, paidL, paidF, tx.fee);
    }
    forall id | id in f
      ensures Transfer(f, tx.fromWalletId, tx.toWalletId, tx.tokenId, tx.amount, tx.fee).0[id].blockId == f[id].blockId
    {
      PayingKeepsStamp(f[id], id, tx.fromWalletId, tx.toWalletId, tx.tokenId, tx.amount, tx.fee);
    }
  }

  lemma PayingKeepsStamp(a: Account, id: Id, from: Id, to: Id, token: Id, amount: int, fee: int)
    ensures Credited(Paying(a, id, from, to, token, amount, fee), id, fee).blockId == a.blockId
  {
  }

  lemma PutAgrees(l: Accounts, f: Accounts, start: nat, a: Account)
    requires StillSimulates(l, f, start)
    ensures StillSimulates(l[a.id := a], f[a.id := a], start)
  {
  }

  /** A replaced account is the same on both sides; so is the credit to the fee account, unless the late joiner
      has none. */
  lemma ReplaceSimulates(l: Accounts, f: Accounts, start: nat, id: Id, wallet: Wallet, blockId: nat, fee: u64)
    requires StillSimulates(l, f, start)
    requires ReplaceAndPay(l, id, wallet, blockId, fee).1.Done? && ReplaceAndPay(f, id, wallet, blockId, fee).1.Done?
    ensures StillSimulates(ReplaceAndPay(l, id, wallet, blockId, fee).0, ReplaceAndPay(f, id, wallet, blockId, fee).0, start)
  {
    hide AgreeOn;
    var a := Account.Account(id, wallet, blockId);
    PutAgrees(l, f, start, a);
    var l1, f1 := l[id := a], f[id := a];
    if fee > 0 && ID_FEE in f1 {
      FeeDeposited(f1, fee);
      if ID_FEE in l1 {
        FeeDeposited(l1, fee);
        CreditAgrees(ID_FEE, l1[ID_FEE], f1[ID_FEE], fee);
      }
      CreditedAgrees(l1, f1, start, fee);
    }
  }

  lemma FeeDeposited(b: Accounts, fee: u64)
    requires fee > 0 && ID_FEE in b && Deposit(b, ID_FEE, ID_GENESIS, ToInt64(fee)).1.Done?
    ensures Deposit(b, ID_FEE, ID_GENESIS, ToInt64(fee)).0 == b[ID_FEE := Credited(b[ID_FEE], ID_FEE, fee)]
  {
  }

  lemma CreditedAgrees(l: Accounts, f: Accounts, start: nat, fee: int)
    requires StillSimulates(l, f, start) && ID_FEE in f
    ensures ID_FEE in l ==>
      StillSimulates(l[ID_FEE := Credited(l[ID_FEE], ID_FEE, fee)], f[ID_FEE := Credited(f[ID_FEE], ID_FEE, fee)], start)
    ensures StillSimulates(l, f[ID_FEE := Credited(f[ID_FEE], ID_FEE, fee)], start)
  {
    if ID_FEE in l {
      CreditAgrees(ID_FEE, l[ID_FEE], f[ID_FEE], fee);
    }
  }

  lemma TransferStrictOrLoose(b: Accounts, from: Id, to: Id, amount: u64, fee: u64)
    requires from in b && to in b
    ensures var tx := TxDefault(ID_GENESIS, from, to, amount, fee, [], Window(0, 0, 0));
      && TransferLoose(tx, b).0 == Transfer(b, from, to, ID_GENESIS, amount, fee).0
      && (TransferLoose(tx, b).1.Done? <==> Transfer(b, from, to, ID_GENESIS, amount, fee).1.Done?)
  {
    hide Transfer;
  }

  lemma NewUserSimulates(cxL: Context, cxF: Context, tx: TypedTx, l: Accounts, f: Accounts, start: nat, blockId: nat)
    requires cxL.codec == cxF.codec && tx.TxNewUser? && StillSimulates(l, f, start)
    requires NewUser(cxL, tx, l, map[], blockId, false).1.Done? && NewUser(cxF, tx, f, map[], blockId, true).1.Done?
    ensures StillSimulates(NewUser(cxL, tx, l, map[], blockId, false).0, NewUser(cxF, tx, f, map[], blockId, true).0, start)
  {
    hide Transfer;
    hide CheckFee;
    hide VerifySpendingPower;
    hide AgreeOn;
    hide TransferLoose;
    var a := Account.Account(tx.toWalletId, cxL.codec.userAccountOf(tx.meta).value.wallet.(balances := map[]), blockId);
    PutAgrees(l, f, start, a);
    var l1, f1 := l[tx.toWalletId := a], f[tx.toWalletId := a];
    assert tx.fromWalletId in l1 by {
      SpenderKnown(l, tx.fromWalletId, tx.amount, tx.fee);
    }
    TransferStrictOrLoose(l1, tx.fromWalletId, tx.toWalletId, tx.amount, tx.fee);
    TransferSimulates(TxDefault(ID_GENESIS, tx.fromWalletId, tx.toWalletId, tx.amount, tx.fee, [], Window(0, 0, 0)),
                      l1, f1, start);
  }

  lemma SpenderKnown(b: Accounts, id: Id, amount: u64, fee: u64)
    requires VerifySpendingPower(b, id, ID_GENESIS, amount, fee).Done?
    ensures id in b
  {
  }

  /** When the late joiner does not know the genesis account, a genesis renewal passes it by. */
  lemma GenesisRenewalSimulates(cxL: Context, cxF: Context, tx: TypedTx, l: Accounts, f: Accounts, start: nat, blockId: nat)
    requires cxL.codec == cxF.codec && tx.TxRenewal? && StillSimulates(l, f, start)
    requires GenesisRenewal(cxL, tx, l, blockId, false).1.Done? && GenesisRenewal(cxF, tx, f, blockId, true).1.Done?
    ensures StillSimulates(GenesisRenewal(cxL, tx, l, blockId, false).0, GenesisRenewal(cxF, tx, f, blockId, true).0, start)
  {
    hide CheckFee;
    hide VerifyBalance;
    hide AgreeOn;
    hide ReplaceAndPay;
    var wallet := cxL.codec.genesisMetaOf(tx.meta).value.genesis.wallet;
    if ID_GENESIS in l {
      ReplaceSimulates(l, f, start, ID_GENESIS, wallet, blockId, tx.fee);
    } else {
      UnknownReplaceSimulates(l, f, start, wallet, blockId, tx.fee);
    }
  }

  lemma UnknownReplaceSimulates(l: Accounts, f: Accounts, start: nat, wallet: Wallet, blockId: nat, fee: u64)
    requires StillSimulates(l, f, start) && ID_GENESIS !in l
    requires ReplaceAndPay(f, ID_GENESIS, wallet, blockId, fee).1.Done?
    ensures StillSimulates(l, ReplaceAndPay(f, ID_GENESIS, wallet, blockId, fee).0, start)
  {
    hide AgreeOn;
    var f1 := f[ID_GENESIS := Account.Account(ID_GENESIS, wallet, blockId)];
    assert StillSimulates(l, f1, start);
    if fee > 0 && ID_FEE in f1 {
      FeeDeposited(f1, fee);
      CreditedAgrees(l, f1, start, fee);
    }
  }

  lemma SameUnlessFee(l: Accounts, f: Accounts, start: nat, id: Id)
    requires StillSimulates(l, f, start) && id in l && id != ID_FEE
    ensures id in f && l[id] == f[id]
  {
  }

  lemma WriteOffSimulates(l: Accounts, f: Accounts, start: nat, id: Id)
    requires StillSimulates(l, f, start) && id != ID_FEE
    requires WriteOff(l, id).1.Done? && WriteOff(f, id).1.Done?
    ensures StillSimulates(WriteOff(l, id).0, WriteOff(f, id).0, start)
  {
    hide Absorb;
    hide AgreeOn;
    SameUnlessFee(l, f, start, ID_RECYCLE);
    SameUnlessFee(l, f, start, id);
    var recycle := l[ID_RECYCLE];
    var absorbed := Absorb(recycle.wallet.balances, l[id].wallet.balances);
    var a := recycle.(wallet := recycle.wallet.(balances := absorbed));
    RecycleAgrees(a);
  }

  lemma RecycleAgrees(a: Account)
    ensures AgreeOn(ID_RECYCLE, a, a)
  {
  }

  /** One record: the full node applies it strictly, the late joiner loosely, both accept it. */
  lemma HandleSimulates(cxL: Context, cxF: Context, tx: TypedTx, l: Accounts, f: Accounts, start: nat, blockId: nat)
    requires cxL.codec == cxF.codec && !tx.TxGenesis? && StillSimulates(l, f, start)
    requires !(tx.TxEndUser? && tx.walletId == ID_FEE)
    requires Handle(cxL, tx, l, map[], blockId, false).1.Done? && Handle(cxF, tx, f, map[], blockId, true).1.Done?
    ensures StillSimulates(Handle(cxL, tx, l, map[], blockId, false).0, Handle(cxF, tx, f, map[], blockId, true).0, start)
  {
    hide StillSimulates;
    hide ReplaceAndPay;
    hide TransferLoose;
    hide Transfer;
    hide NewUser;
    hide GenesisRenewal;
    hide WriteOff;
    hide VerifyBalance;
    hide CheckFee;
    hide MinFeeForAccount;
    match tx
    case TxDefault(_, _, _, _, _, _, _) =>
      TransferSimulates(tx, l, f, start);
    case TxNewUser(_, _, _, _, _, _) =>
      NewUserSimulates(cxL, cxF, tx, l, f, start, blockId);
    case TxConfig(_, meta, _) =>
      ConfigReplaces(l, cxL.codec.genesisMetaOf(meta).value.genesis.wallet, blockId);
      ConfigReplaces(f, cxL.codec.genesisMetaOf(meta).value.genesis.wallet, blockId);
      ReplaceSimulates(l, f, start, ID_GENESIS, cxL.codec.genesisMetaOf(meta).value.genesis.wallet, blockId, 0);
    case TxUserUpdate(id, fee, meta, _) =>
      ReplaceSimulates(l, f, start, id, cxL.codec.userAccountOf(meta).value.wallet, blockId, fee);
    case TxRenewal(id, fee, meta) =>
      if id == ID_GENESIS {
        GenesisRenewalSimulates(cxL, cxF, tx, l, f, start, blockId);
      } else {
        ReplaceSimulates(l, f, start, id, cxL.codec.userAccountOf(meta).value.wallet, blockId, fee);
      }
    case TxEndUser(id, _, _) =>
      WriteOffSimulates(l, f, start, id);
  }

  lemma ConfigReplaces(b: Accounts, wallet: Wallet, blockId: nat)
    ensures ReplaceAndPay(b, ID_GENESIS, wallet, blockId, 0)
         == (b[ID_GENESIS := Account.Account(ID_GENESIS, wallet, blockId)], Done)
  {
  }

  // ----- one block -----

  /** The fee account is never ended. */
  predicate KeepsFeeAccount(codec: Codec, records: seq<Record>) {
    forall i | 0 <= i < |records| ::
      var tx := codec.decode(records[i]);
      !(tx.Some? && tx.value.TxEndUser? && tx.value.walletId == ID_FEE)
  }

  lemma RecordSimulates(codec: Codec, lL: Ledger, lF: Ledger, wL: World, wF: World, block: Block, i: nat, start: nat)
    requires block.index != 0 && i < |block.records| && KeepsFeeAccount(codec, block.records)
    requires StillSimulates(wL.accounts, wF.accounts, start)
    requires ProcessRecord(codec, lL, wL, block.records[i], block, false).1.Done?
    requires ProcessRecord(codec, lF, wF, block.records[i], block, true).1.Done?
    ensures StillSimulates(ProcessRecord(codec, lL, wL, block.records[i], block, false).0.accounts,
                           ProcessRecord(codec, lF, wF, block.records[i], block, true).0.accounts, start)
  {
    hide StillSimulates;
    hide Handle;
    hide Idempotency;
    hide ValidateTxSignatures;
    var tx := codec.decode(block.records[i]).value;
    HandleSimulates(ContextOf(codec, lL, wL), ContextOf(codec, lF, wF), tx, wL.accounts, wF.accounts, start, block.index);
  }

  lemma {:induction false} BlockSimulates(codec: Codec, lL: Ledger, lF: Ledger, wL: World, wF: World, block: Block, i: nat, start: nat)
    requires block.index != 0 && i <= |block.records| && KeepsFeeAccount(codec, block.records)
    requires StillSimulates(wL.accounts, wF.accounts, start)
    requires ProcessRecords(codec, lL, wL, block, i, false).1.Done?
    requires ProcessRecords(codec, lF, wF, block, i, true).1.Done?
    ensures StillSimulates(ProcessRecords(codec, lL, wL, block, i, false).0.accounts,
                           ProcessRecords(codec, lF, wF, block, i, true).0.accounts, start)
    decreases |block.records| - i
  {
    hide StillSimulates;
    hide ProcessRecord;
    hide KeepsFeeAccount;
    if i < |block.records| {
      RecordSimulates(codec, lL, lF, wL, wF, block, i, start);
      BlockSimulates(codec, lL, lF, ProcessRecord(codec, lL, wL, block.records[i], block, false).0,
                     ProcessRecord(codec, lF, wF, block.records[i], block, true).0, block, i + 1, start);
    }
  }

  // ----- whole runs -----

  lemma {:induction false} RunExtends(codec: Codec, st: ChainState, events: seq<Event>)
    requires BaseInvariant(st) && Accepted(codec, st, events)
    ensures st.ledger.nodes <= Run(codec, st, events).0.ledger.nodes
    ensures st.ledger.start == Run(codec, st, events).0.ledger.start
    decreases |events|
  {
    hide AddBlock;
    hide AtTip;
    hide BaseInvariant;
    if events != [] {
      if events[0].Offer? {
        OfferKeepsBase(codec, st, events[0].node, events[0].now);
        OfferAppends(codec, st, events[0].node, events[0].now);
      } else {
        RefreshKeepsBase(st, events[0].epoch);
      }
      RunExtends(codec, Step(codec, st, events[0]).0, events[1..]);
    }
  }

  lemma OfferAppends(codec: Codec, st: ChainState, node: ChainNode, now: int)
    requires AddBlock(codec, st, node, now).1.Done?
    ensures AddBlock(codec, st, node, now).0.ledger == Appended(st.ledger, node)
  {
  }

  predicate KeepsFeeAlong(codec: Codec, nodes: seq<ChainNode>) {
    forall i | 0 <= i < |nodes| :: KeepsFeeAccount(codec, nodes[i].block.records)
  }

  /** One block of the replay, against the same block as the full node accepted it. */
  lemma ReplayStep(codec: Codec, full: ChainState, node: ChainNode, appliedAt: int, joiner: ChainState, now: int, start: nat)
    returns (next: ChainState)
    requires BaseInvariant(full) && AtTip(full, node) && AddBlock(codec, full, node, appliedAt).1.Done?
    requires StillSimulates(joiner.world.accounts, full.world.accounts, start) && KeepsFeeAccount(codec, node.block.records)
    requires joiner.ledger.Has(node.block.index) && joiner.ledger.nodes[node.block.index - joiner.ledger.start] == node
    requires Replay(codec, joiner, node.block.index, false, now).1.Done?
    ensures next.ledger == joiner.ledger
    ensures Replay(codec, joiner, node.block.index, false, now) == Replay(codec, next, node.block.index + 1, false, now)
    ensures StillSimulates(next.world.accounts, AddBlock(codec, full, node, appliedAt).0.world.accounts, start)
  {
    hide AddBlock;
    hide ProcessRecords;
    hide ValidateBlock;
    hide StillSimulates;
    hide BaseInvariant;
    hide KeepsFeeAccount;
    hide StakesOf;
    OfferUnfolds(codec, full, node, appliedAt);
    IndexPositive(full, node);
    var schedule := joiner.world.consensus.schedule;
    var refreshed := joiner.(world := RefreshStakes(joiner.world, Ouroboros.EpochFromSlot(schedule, node.block.slot)));
    next := ProcessBlock(codec, refreshed, node, false, now).0;
    BlockSimulates(codec, joiner.ledger, full.ledger, refreshed.world, full.world, node.block, 0, start);
  }

  lemma IndexPositive(full: ChainState, node: ChainNode)
    requires BaseInvariant(full) && AtTip(full, node)
    ensures node.block.index > 0
  {
  }

  /** The joiner's ledger holds the full node's blocks from the joiner's start on. */
  ghost predicate SuffixOf(joiner: Ledger, full: Ledger) {
    && full.start == 0 && joiner.start <= |full.nodes| && joiner.nodes == full.nodes[joiner.start..]
  }

  lemma {:induction false} ReplaySimulates(codec: Codec, full: ChainState, events: seq<Event>, joiner: ChainState, now: int, start: nat)
    requires BaseInvariant(full) && Accepted(codec, full, events)
    requires StillSimulates(joiner.world.accounts, full.world.accounts, start)
    requires SuffixOf(joiner.ledger, Run(codec, full, events).0.ledger) && joiner.ledger.start <= full.ledger.Next()
    requires KeepsFeeAlong(codec, joiner.ledger.nodes)
    requires Replay(codec, joiner, full.ledger.Next(), false, now).1.Done?
    ensures StillSimulates(Replay(codec, joiner, full.ledger.Next(), false, now).0.world.accounts,
                           Run(codec, full, events).0.world.accounts, start)
    decreases |events|
  {
    hide AddBlock;
    hide StillSimulates;
    hide KeepsFeeAccount;
    hide ProcessBlock;
    hide BaseInvariant;
    if events == [] {
      assert !joiner.ledger.Has(full.ledger.Next());
    } else if events[0].Refresh? {
      RefreshKeepsBase(full, events[0].epoch);
      ReplaySimulates(codec, Step(codec, full, events[0]).0, events[1..], joiner, now, start);
    } else {
      var node := events[0].node;
      var after := AddBlock(codec, full, node, events[0].now).0;
      OfferKeepsBase(codec, full, node, events[0].now);
      OfferAppends(codec, full, node, events[0].now);
      RunExtends(codec, after, events[1..]);
      JoinerHoldsTip(full, node, after, Run(codec, after, events[1..]).0, joiner);
      var next := ReplayStep(codec, full, node, events[0].now, joiner, now, start);
      ReplaySimulates(codec, after, events[1..], next, now, start);
    }
  }

  lemma JoinerHoldsTip(full: ChainState, node: ChainNode, after: ChainState, final: ChainState, joiner: ChainState)
    requires BaseInvariant(full) && node.block.index == full.ledger.Next() && after.ledger == Appended(full.ledger, node)
    requires after.ledger.nodes <= final.ledger.nodes && SuffixOf(joiner.ledger, final.ledger)
    requires joiner.ledger.start <= full.ledger.Next()
    ensures joiner.ledger.Has(node.block.index) && joiner.ledger.nodes[node.block.index - joiner.ledger.start] == node
    ensures joiner.ledger.start <= after.ledger.Next()
  {
    assert final.ledger.nodes[|full.ledger.nodes|] == after.ledger.nodes[|full.ledger.nodes|] == node;
  }
}
