/** When a late joiner's replay succeeds: what it knows and which fees it missed follow from the records alone, and tell for
    every record of the running chain whether the joiner can apply it. */
module SyncGuards {
  import opened Numbers
  import opened Outcomes
  import opened ChainTypes
  import opened Bank
  import opened LedgerView
  import opened TxFees
  import opened TxHandlers
  import opened TxIdempotency
  import opened BlockValidation
  import opened ChainSpec
  import opened Runs
  import opened CheckpointSafety
  import opened LateJoiner
  import opened CheckpointSync
  import AtMostOnce
  import Reload
  import Ouroboros

  // ----- what the joiner knows -----

  /** The accounts a replay has met, the native fees its fee account lacks, and whether it has a configuration. */
  datatype Knowledge = Knowledge(known: set<Id>, missed: nat, configured: bool)

  /** A record's fee that the joiner cannot credit. */
  function MissedFee(k: Knowledge, fee: u64): nat {
    if ID_FEE in k.known then fee else 0
  }

  /** What is known after a record that the running chain and the joiner have both accepted. */
  function Learned(k: Knowledge, tx: TypedTx): Knowledge {
    match tx
    case TxDefault(_, from, _, _, fee, _, _) => if from in k.known then k else k.(missed := k.missed + MissedFee(k, fee))
    case TxGenesis(_, _) => k
    case TxNewUser(_, to, _, _, _, _) => k.(known := k.known + {to})
    case TxConfig(_, _, _) => k.(configured := true)
    case TxUserUpdate(id, _, _, _) => LearnedUpdate(k, id)
    case TxRenewal(id, fee, _) =>
      if id != ID_GENESIS then LearnedUpdate(k, id)
      else if ID_GENESIS in k.known then k
      else k.(missed := k.missed + MissedFee(k, fee))
    case TxEndUser(id, _, _) => k.(known := k.known - {id})
  }

  function LearnedUpdate(k: Knowledge, id: Id): Knowledge {
    k.(known := k.known + {id}, missed := if id == ID_FEE then 0 else k.missed)
  }

  /** The fee account can pay although it lacks the missed fees. */
  predicate FeeAccountPays(k: Knowledge, f: Accounts, token: Id, amount: nat, fee: nat) {
    BalanceOf(f, ID_FEE, ID_GENESIS) - k.missed >= (if token == ID_GENESIS then amount + fee else fee)
  }

  /** Whether the joiner can apply a record that the running chain has accepted with the accounts `f`. */
  predicate Applicable(k: Knowledge, f: Accounts, tx: TypedTx) {
    match tx
    case TxDefault(token, from, to, amount, fee, _, _) =>
      && (from in k.known && to in k.known && fee > 0 ==> ID_FEE in k.known)
      && (from == ID_FEE && ID_FEE in k.known && (to in k.known || token == ID_GENESIS || fee > 0) ==>
            FeeAccountPays(k, f, token, amount, fee))
    case TxGenesis(_, _) => true
    case TxNewUser(from, to, amount, fee, _, _) =>
      && from in k.known && (fee > 0 ==> ID_FEE in k.known || to == ID_FEE)
      && (from == ID_FEE ==> FeeAccountPays(k, f, ID_GENESIS, amount, fee))
    case TxConfig(_, _, _) => ID_GENESIS in k.known
    case TxUserUpdate(id, _, _, _) => id == ID_FEE ==> k.missed == 0
    case TxRenewal(id, _, _) => id == ID_FEE ==> k.missed == 0
    case TxEndUser(id, _, _) => k.configured && id in k.known && ID_RECYCLE in k.known
  }

  /** The joiner's accounts are those it knows, as the running chain has them but for the missed fees. */
  ghost predicate Tracks(k: Knowledge, l: Accounts, f: Accounts) {
    && l.Keys == k.known && Agrees(l, f)
    && (if ID_FEE in l then BalanceOf(l, ID_FEE, ID_GENESIS) == BalanceOf(f, ID_FEE, ID_GENESIS) - k.missed else k.missed == 0)
    && forall id | id in f :: f[id].id == id
  }

  // ----- balances -----

  lemma BalanceTracked(k: Knowledge, l: Accounts, f: Accounts, id: Id, token: Id)
    requires Tracks(k, l, f) && id in l
    ensures id in f && l[id].id == f[id].id == id && l[id].blockId == f[id].blockId
    ensures BalanceOf(l, id, token) == BalanceOf(f, id, token) - (if id == ID_FEE && token == ID_GENESIS then k.missed else 0)
  {
    assert AgreeOn(id, l[id], f[id]);
    if id == ID_FEE && token != ID_GENESIS {
      SameCustomBalance(l[id], f[id], token);
    }
  }

  lemma SpendingTracked(k: Knowledge, l: Accounts, f: Accounts, from: Id, token: Id, amount: u64, fee: u64)
    requires Tracks(k, l, f) && VerifySpendingPower(f, from, token, amount, fee).Done?
    ensures VerifySpendingPower(l, from, token, amount, fee).Done? <==>
      from in l && (from == ID_FEE ==> FeeAccountPays(k, f, token, amount, fee))
  {
    hide Tracks;
    if from in l {
      BalanceTracked(k, l, f, from, token);
      BalanceTracked(k, l, f, from, ID_GENESIS);
    }
  }

  /** How a transfer changes an account's native balance before the fee is credited. */
  function NativeChange(id: Id, from: Id, to: Id, token: Id, amount: int, fee: int): int {
    var taken := if token == ID_GENESIS then amount else 0;
    if fee > 0 && id == from then -taken - fee
    else if id == to then taken
    else if id == from then -taken
    else 0
  }

  lemma PayingNative(a: Account, id: Id, from: Id, to: Id, token: Id, amount: int, fee: int)
    ensures TokenBalance(Paying(a, id, from, to, token, amount, fee).wallet.balances, ID_GENESIS)
         == TokenBalance(a.wallet.balances, ID_GENESIS) + NativeChange(id, from, to, token, amount, fee)
    ensures TokenBalance(Credited(a, id, fee).wallet.balances, ID_GENESIS)
         == TokenBalance(a.wallet.balances, ID_GENESIS) + (if fee > 0 && id == ID_FEE then fee else 0)
    ensures Paying(a, id, from, to, token, amount, fee).id == a.id && Credited(a, id, fee).id == a.id
  {
  }

  /** A loose transfer, account by account: the fee is credited exactly when the sender is known. */
  lemma LooseExactly(tx: TypedTx, b: Accounts)
    requires tx.TxDefault? && tx.amount <= INT64_MAX && tx.fee <= INT64_MAX && TransferLoose(tx, b).1.Done?
    ensures TransferLoose(tx, b).0.Keys == b.Keys
    ensures forall id | id in b ::
      var paid := Paying(b[id], id, tx.fromWalletId, tx.toWalletId, tx.tokenId, tx.amount, tx.fee);
      TransferLoose(tx, b).0[id] == if tx.fromWalletId in b then Credited(paid, id, tx.fee) else paid
  {
    if tx.fromWalletId in b {
      if tx.toWalletId in b {
        TransferPointwise(b, tx.fromWalletId, tx.toWalletId, tx.tokenId, tx.amount, tx.fee);
      } else {
        WithdrawPointwise(tx, b);
        hide WithdrawLoose;
      }
    }
  }

  /** Both transfers accepted: the joiner keeps track. */
  lemma TransferTracked(k: Knowledge, tx: TypedTx, l: Accounts, f: Accounts)
    requires tx.TxDefault? && Tracks(k, l, f) && TransferLoose(tx, l).1.Done?
    requires Transfer(f, tx.fromWalletId, tx.toWalletId, tx.tokenId, tx.amount, tx.fee).1.Done?
    ensures Tracks(Learned(k, tx), TransferLoose(tx, l).0, Transfer(f, tx.fromWalletId, tx.toWalletId, tx.tokenId, tx.amount, tx.fee).0)
  {
    hide TransferLoose, Transfer, Paying, Credited, AgreeOn;
    var from, to, token, amount, fee := tx.fromWalletId, tx.toWalletId, tx.tokenId, tx.amount, tx.fee;
    TransferPointwise(f, from, to, token, amount, fee);
    LooseExactly(tx, l);
    var l1, f1 := TransferLoose(tx, l).0, Transfer(f, from, to, token, amount, fee).0;
    forall id | id in f
      ensures f1[id].id == id
    {
      PayingNative(f[id], id, from, to, token, amount, fee);
      PayingNative(Paying(f[id], id, from, to, token, amount, fee), id, from, to, token, amount, fee);
    }
    forall id | id in l
      ensures AgreeOn(id, l1[id], f1[id])
    {
      var paidL, paidF := Paying(l[id], id, from, to, token, amount, fee), Paying(f[id], id, from, to, token, amount, fee);
      PayingAgrees(id, l[id], f[id], from, to, token, amount, fee);
      CreditAgrees(id, paidL, paidF, fee);
      if id != ID_FEE {
        NotCredited(paidF, id, fee);
      }
    }
    if ID_FEE in l {
      var paidL, paidF := Paying(l[ID_FEE], ID_FEE, from, to, token, amount, fee), Paying(f[ID_FEE], ID_FEE, from, to, token, amount, fee);
      PayingNative(l[ID_FEE], ID_FEE, from, to, token, amount, fee);
      PayingNative(f[ID_FEE], ID_FEE, from, to, token, amount, fee);
      PayingNative(paidL, ID_FEE, from, to, token, amount, fee);
      PayingNative(paidF, ID_FEE, from, to, token, amount, fee);
    }
  }

  lemma NotCredited(a: Account, id: Id, fee: int)
    requires id != ID_FEE
    ensures Credited(a, id, fee) == a
  {
  }

  // ----- which transfers apply -----

  lemma RoomTracked(k: Knowledge, l: Accounts, f: Accounts, id: Id, token: Id)
    requires Tracks(k, l, f) && id in l
    ensures BalanceOf(l, id, token) <= BalanceOf(f, id, token)
  {
    hide Tracks;
    BalanceTracked(k, l, f, id, token);
  }

  /** Between known accounts: the sender must be able to pay, and a fee needs a known fee account. */
  lemma KnownTransferIff(k: Knowledge, l: Accounts, f: Accounts, from: Id, to: Id, token: Id, amount: u64, fee: u64)
    requires Tracks(k, l, f) && to in l && Transfer(f, from, to, token, amount, fee).1.Done?
    ensures Transfer(l, from, to, token, amount, fee).1.Done? <==>
      && from in l && (from == ID_FEE ==> FeeAccountPays(k, f, token, amount, fee)) && (fee > 0 ==> ID_FEE in l)
  {
    hide Tracks, VerifySpendingPower, FeeAccountPays, ChargeFee, MoveAmount;
    SpendingTracked(k, l, f, from, token, amount, fee);
    RoomTracked(k, l, f, to, token);
    if fee > 0 && from in l && ID_FEE in l {
      ChargedFeeAccount(k, l, f, from, to, token, amount, fee);
    }
    if fee > 0 && from in l && to in l {
      PaidPointwise(l, from, to, token, amount, fee);
    }
  }

  /** The fee account after the sender has paid, before it is credited. */
  lemma ChargedFeeAccount(k: Knowledge, l: Accounts, f: Accounts, from: Id, to: Id, token: Id, amount: u64, fee: u64)
    requires Tracks(k, l, f) && from in l && to in l && ID_FEE in l && fee > 0
    ensures from in f && to in f
    ensures BalanceOf(ChargeFee(l, from, to, token, amount, fee), ID_FEE, ID_GENESIS)
         <= BalanceOf(ChargeFee(f, from, to, token, amount, fee), ID_FEE, ID_GENESIS)
    ensures ID_FEE in ChargeFee(l, from, to, token, amount, fee)
  {
    hide Paying, Credited, AgreeOn, ChargeFee;
    PaidPointwise(l, from, to, token, amount, fee);
    PaidPointwise(f, from, to, token, amount, fee);
    PayingNative(l[ID_FEE], ID_FEE, from, to, token, amount, fee);
    PayingNative(f[ID_FEE], ID_FEE, from, to, token, amount, fee);
  }

  /** From a known sender to an unknown receiver. */
  lemma WithdrawIff(k: Knowledge, tx: TypedTx, l: Accounts, f: Accounts)
    requires tx.TxDefault? && Tracks(k, l, f) && tx.fromWalletId in l && tx.toWalletId !in l
    requires Transfer(f, tx.fromWalletId, tx.toWalletId, tx.tokenId, tx.amount, tx.fee).1.Done?
    ensures WithdrawLoose(tx, l).1.Done? <==>
      (tx.fromWalletId == ID_FEE && (tx.tokenId == ID_GENESIS || tx.fee > 0) ==> FeeAccountPays(k, f, tx.tokenId, tx.amount, tx.fee))
  {
    hide Tracks;
    var from, token := tx.fromWalletId, tx.tokenId;
    BalanceTracked(k, l, f, from, token);
    BalanceTracked(k, l, f, from, ID_GENESIS);
    assert VerifySpendingPower(f, from, token, tx.amount, tx.fee).Done?;
    if token != ID_GENESIS {
      OtherBalance(l, from, token, ToInt64(tx.amount));
    }
  }

  /** Paying with another token leaves the native balance. */
  lemma OtherBalance(b: Accounts, id: Id, token: Id, amount: int)
    requires token != ID_GENESIS && Withdraw(b, id, token, amount).1.Done?
    ensures var paid := Withdraw(b, id, token, amount).0;
      paid.Keys == b.Keys && paid[id].id == b[id].id && BalanceOf(paid, id, ID_GENESIS) == BalanceOf(b, id, ID_GENESIS)
  {
  }

  /** What is left of the withdrawal's sender leaves room in the fee account. */
  lemma WithdrawnFeeRoom(k: Knowledge, tx: TypedTx, l: Accounts, f: Accounts)
    requires tx.TxDefault? && Tracks(k, l, f) && tx.fromWalletId in l && tx.toWalletId !in l && ID_FEE in l && tx.fee > 0
    requires Transfer(f, tx.fromWalletId, tx.toWalletId, tx.tokenId, tx.amount, tx.fee).1.Done? && WithdrawLoose(tx, l).1.Done?
    ensures ID_FEE in WithdrawLoose(tx, l).0
    ensures BalanceOf(WithdrawLoose(tx, l).0, ID_FEE, ID_GENESIS) <= INT64_MAX - tx.fee
  {
    hide WithdrawLoose, Paying, Credited, AgreeOn, VerifySpendingPower, ChargeFee, MoveAmount;
    var from, to, token, amount, fee := tx.fromWalletId, tx.toWalletId, tx.tokenId, tx.amount, tx.fee;
    assert amount <= INT64_MAX && fee <= INT64_MAX && from in f && to in f;
    WithdrawPointwise(tx, l);
    PaidPointwise(f, from, to, token, amount, fee);
    PayingNative(l[ID_FEE], ID_FEE, from, to, token, amount, fee);
    PayingNative(f[ID_FEE], ID_FEE, from, to, token, amount, fee);
  }

  lemma DepositRoom(k: Knowledge, tx: TypedTx, l: Accounts, f: Accounts)
    requires tx.TxDefault? && Tracks(k, l, f) && tx.fromWalletId !in l && tx.toWalletId in l
    requires Transfer(f, tx.fromWalletId, tx.toWalletId, tx.tokenId, tx.amount, tx.fee).1.Done?
    ensures Deposit(l, tx.toWalletId, tx.tokenId, ToInt64(tx.amount)).1.Done?
  {
    hide Tracks, VerifySpendingPower, ChargeFee, MoveAmount;
    RoomTracked(k, l, f, tx.toWalletId, tx.tokenId);
    assert tx.amount <= INT64_MAX;
  }

  /** A replayed transfer applies exactly under its guard. */
  lemma TransferAppliesIff(k: Knowledge, tx: TypedTx, l: Accounts, f: Accounts)
    requires tx.TxDefault? && Tracks(k, l, f)
    requires Transfer(f, tx.fromWalletId, tx.toWalletId, tx.tokenId, tx.amount, tx.fee).1.Done?
    ensures TransferLoose(tx, l).1.Done? <==> Applicable(k, f, tx)
  {
    hide Transfer, WithdrawLoose, Deposit, FeeAccountPays, AgreeOn;
    var from, to := tx.fromWalletId, tx.toWalletId;
    if from in l && to in l {
      KnownTransferIff(k, l, f, from, to, tx.tokenId, tx.amount, tx.fee);
    } else if from in l {
      WithdrawIff(k, tx, l, f);
      AmountsFit(f, tx);
      if WithdrawLoose(tx, l).1.Done? && tx.fee > 0 {
        WithdrawPointwise(tx, l);
        if ID_FEE in l {
          WithdrawnFeeRoom(k, tx, l, f);
          DepositWithRoom(WithdrawLoose(tx, l).0, tx.fee);
        }
      }
    } else if to in l {
      DepositRoom(k, tx, l, f);
    }
  }

  lemma AmountsFit(f: Accounts, tx: TypedTx)
    requires tx.TxDefault? && Transfer(f, tx.fromWalletId, tx.toWalletId, tx.tokenId, tx.amount, tx.fee).1.Done?
    ensures tx.amount <= INT64_MAX && tx.fee <= INT64_MAX
  {
    hide MoveAmount, ChargeFee;
  }

  lemma DepositWithRoom(b: Accounts, fee: u64)
    requires ID_FEE in b && fee <= INT64_MAX && BalanceOf(b, ID_FEE, ID_GENESIS) <= INT64_MAX - fee
    ensures Deposit(b, ID_FEE, ID_GENESIS, ToInt64(fee)).1.Done?
  {
  }

  // ----- replacements -----

  /** The account is replaced on both sides by the same wallet. */
  lemma PutTracked(k: Knowledge, l: Accounts, f: Accounts, a: Account)
    requires Tracks(k, l, f)
    ensures Tracks(LearnedUpdate(k, a.id), l[a.id := a], f[a.id := a])
  {
    assert AgreeOn(a.id, a, a);
  }

  lemma CreditTracked(k: Knowledge, l: Accounts, f: Accounts, fee: u64)
    requires Tracks(k, l, f) && ID_FEE in f && fee > 0
    ensures ID_FEE in l ==>
      Tracks(k, l[ID_FEE := Credited(l[ID_FEE], ID_FEE, fee)], f[ID_FEE := Credited(f[ID_FEE], ID_FEE, fee)])
    ensures Tracks(k.(missed := k.missed + MissedFee(k, fee)), l, f[ID_FEE := Credited(f[ID_FEE], ID_FEE, fee)])
  {
    hide AgreeOn;
    PayingNative(f[ID_FEE], ID_FEE, ID_FEE, ID_FEE, ID_FEE, 0, fee);
    if ID_FEE in l {
      CreditAgrees(ID_FEE, l[ID_FEE], f[ID_FEE], fee);
      PayingNative(l[ID_FEE], ID_FEE, ID_FEE, ID_FEE, ID_FEE, 0, fee);
    }
  }

  /** A replacement that the running chain accepts the joiner can make too, and keeps track. */
  lemma ReplaceTracked(k: Knowledge, l: Accounts, f: Accounts, id: Id, wallet: Wallet, blockId: nat, fee: u64)
    requires Tracks(k, l, f) && ReplaceAndPay(f, id, wallet, blockId, fee).1.Done?
    requires fee <= INT64_MAX
    ensures ReplaceAndPay(l, id, wallet, blockId, fee).1.Done?
    ensures Tracks(LearnedUpdate(k, id), ReplaceAndPay(l, id, wallet, blockId, fee).0, ReplaceAndPay(f, id, wallet, blockId, fee).0)
  {
    hide Tracks, Credited;
    var a := Account.Account(id, wallet, blockId);
    PutTracked(k, l, f, a);
    var l1, f1 := l[id := a], f[id := a];
    KeysKnown(k, l, f);
    if fee > 0 && ID_FEE in f1 {
      FeeDeposited(f1, fee);
      CreditTracked(LearnedUpdate(k, id), l1, f1, fee);
      if ID_FEE in l1 {
        RoomTracked(LearnedUpdate(k, id), l1, f1, ID_FEE, ID_GENESIS);
        DepositWithRoom(l1, fee);
        FeeDeposited(l1, fee);
      } else {
        assert MissedFee(LearnedUpdate(k, id), fee) == 0;
      }
    }
  }

  lemma KeysKnown(k: Knowledge, l: Accounts, f: Accounts)
    requires Tracks(k, l, f)
    ensures l.Keys == k.known && l.Keys <= f.Keys
  {
  }

  /** The payload verifies against the joiner's account exactly when it lacks no fees of it. */
  lemma VerifiedTracked(k: Knowledge, l: Accounts, f: Accounts, id: Id, fee: u64, expected: Balances)
    requires Tracks(k, l, f) && id in l && VerifyBalance(f, id, 0, fee, expected).Done?
    ensures VerifyBalance(l, id, 0, fee, expected).Done? <==> (id == ID_FEE ==> k.missed == 0)
  {
    assert AgreeOn(id, l[id], f[id]);
    if id == ID_FEE {
      SameCustoms(l[id].wallet.balances, f[id].wallet.balances, expected);
    }
  }

  lemma SameCustoms(m: Balances, n: Balances, expected: Balances)
    requires m - {ID_GENESIS} == n - {ID_GENESIS} && SameCustomTokens(n, expected)
    ensures SameCustomTokens(m, expected)
  {
    forall t | t in m.Keys + expected.Keys && t != ID_GENESIS
      ensures TokenBalance(m, t) == TokenBalance(expected, t)
    {
      assert t in m <==> t in m - {ID_GENESIS};
      assert t in n <==> t in n - {ID_GENESIS};
      assert TokenBalance(m - {ID_GENESIS}, t) == TokenBalance(n - {ID_GENESIS}, t);
    }
  }

  // ----- one record -----

  /** The joiner reads the same codec and, for what it knows, the blocks that the chain reads; its configuration, once it has one, is the
      chain's. */
  ghost predicate SameReading(k: Knowledge, cxL: Context, cxF: Context, l: Accounts, f: Accounts) {
    && cxL.codec == cxF.codec && cxF.config.Some? && cxL.config == (if k.configured then cxF.config else None)
    && forall id | id in l && id in f && ReadBlock(cxF.ledger, f[id].blockId).Some? ::
         ReadBlock(cxL.ledger, f[id].blockId) == ReadBlock(cxF.ledger, f[id].blockId)
  }

  lemma NewUserAppliesIff(k: Knowledge, cxL: Context, cxF: Context, tx: TypedTx, l: Accounts, f: Accounts, blockId: nat)
    requires tx.TxNewUser? && Tracks(k, l, f) && cxL.codec == cxF.codec
    requires NewUser(cxF, tx, f, map[], blockId, true).1.Done?
    ensures NewUser(cxL, tx, l, map[], blockId, false).1.Done? <==> Applicable(k, f, tx)
    ensures NewUser(cxL, tx, l, map[], blockId, false).1.Done? ==>
      Tracks(Learned(k, tx), NewUser(cxL, tx, l, map[], blockId, false).0, NewUser(cxF, tx, f, map[], blockId, true).0)
  {
    hide Transfer, CheckFee, VerifySpendingPower, Tracks, CheckWallet, TransferLoose;
    var from, to := tx.fromWalletId, tx.toWalletId;
    KeysKnown(k, l, f);
    SpenderKnown(f, from, tx.amount, tx.fee);
    SpendingTracked(k, l, f, from, ID_GENESIS, tx.amount, tx.fee);
    var a := Account.Account(to, cxL.codec.userAccountOf(tx.meta).value.wallet.(balances := map[]), blockId);
    PutTracked(k, l, f, a);
    NothingMissed(k, l, f);
    var k1, l1, f1 := LearnedUpdate(k, to), l[to := a], f[to := a];
    assert k1 == Learned(k, tx);
    KnownTransferIff(k1, l1, f1, from, to, ID_GENESIS, tx.amount, tx.fee);
    if Transfer(l1, from, to, ID_GENESIS, tx.amount, tx.fee).1.Done? {
      var payment := TxDefault(ID_GENESIS, from, to, tx.amount, tx.fee, [], Window(0, 0, 0));
      TransferStrictOrLoose(l1, from, to, tx.amount, tx.fee);
      KeysKnown(k1, l1, f1);
      TransferTracked(k1, payment, l1, f1);
    }
  }

  lemma NothingMissed(k: Knowledge, l: Accounts, f: Accounts)
    requires Tracks(k, l, f)
    ensures ID_FEE !in f ==> ID_FEE !in l && k.missed == 0
  {
  }

  lemma GenesisRenewalApplies(k: Knowledge, cxL: Context, cxF: Context, tx: TypedTx, l: Accounts, f: Accounts, blockId: nat)
    requires tx.TxRenewal? && tx.walletId == ID_GENESIS && Tracks(k, l, f) && cxL.codec == cxF.codec
    requires GenesisRenewal(cxF, tx, f, blockId, true).1.Done?
    ensures GenesisRenewal(cxL, tx, l, blockId, false).1.Done?
    ensures Tracks(Learned(k, tx), GenesisRenewal(cxL, tx, l, blockId, false).0, GenesisRenewal(cxF, tx, f, blockId, true).0)
  {
    hide CheckFee, VerifyBalance, ReplaceAndPay, Tracks, CheckGenesisWallet;
    var wallet := cxL.codec.genesisMetaOf(tx.meta).value.genesis.wallet;
    assert VerifyBalance(f, ID_GENESIS, 0, tx.fee, wallet.balances).Done?;
    KeysKnown(k, l, f);
    if ID_GENESIS in l {
      VerifiedTracked(k, l, f, ID_GENESIS, tx.fee, wallet.balances);
      ReplaceTracked(k, l, f, ID_GENESIS, wallet, blockId, tx.fee);
      assert k.known + {ID_GENESIS} == k.known;
      assert LearnedUpdate(k, ID_GENESIS) == Learned(k, tx);
    } else {
      UnknownGenesisTracked(k, l, f, wallet, blockId, tx.fee);
    }
  }

  lemma UnknownGenesisTracked(k: Knowledge, l: Accounts, f: Accounts, wallet: Wallet, blockId: nat, fee: u64)
    requires Tracks(k, l, f) && ID_GENESIS !in l && fee <= INT64_MAX
    requires ReplaceAndPay(f, ID_GENESIS, wallet, blockId, fee).1.Done?
    ensures Tracks(k.(missed := k.missed + MissedFee(k, fee)), l, ReplaceAndPay(f, ID_GENESIS, wallet, blockId, fee).0)
  {
    hide AgreeOn, Credited;
    var f1 := f[ID_GENESIS := Account.Account(ID_GENESIS, wallet, blockId)];
    assert Tracks(k, l, f1);
    if fee > 0 && ID_FEE in f1 {
      FeeDeposited(f1, fee);
      CreditTracked(k, l, f1, fee);
    }
  }

  lemma UpsertAppliesIff(k: Knowledge, cxL: Context, cxF: Context, id: Id, fee: u64, meta: Bytes, l: Accounts, f: Accounts, blockId: nat)
    requires Tracks(k, l, f) && cxL.codec == cxF.codec && Upsert(cxF, id, fee, meta, f, blockId, true).1.Done?
    ensures Upsert(cxL, id, fee, meta, l, blockId, false).1.Done? <==> (id == ID_FEE ==> k.missed == 0)
    ensures Upsert(cxL, id, fee, meta, l, blockId, false).1.Done? ==>
      Tracks(LearnedUpdate(k, id), Upsert(cxL, id, fee, meta, l, blockId, false).0, Upsert(cxF, id, fee, meta, f, blockId, true).0)
  {
    hide CheckFee, VerifyBalance, ReplaceAndPay, Tracks, CheckWallet;
    var wallet := cxL.codec.userAccountOf(meta).value.wallet;
    assert id in f && VerifyBalance(f, id, 0, fee, wallet.balances).Done?;
    if id in l {
      VerifiedTracked(k, l, f, id, fee, wallet.balances);
    } else {
      UnknownMissesNothing(k, l, f, id);
    }
    ReplaceTracked(k, l, f, id, wallet, blockId, fee);
  }

  lemma UnknownMissesNothing(k: Knowledge, l: Accounts, f: Accounts, id: Id)
    requires Tracks(k, l, f) && id !in l
    ensures id == ID_FEE ==> k.missed == 0
  {
  }

  lemma ConfigAppliesIff(k: Knowledge, cxL: Context, cxF: Context, tx: TypedTx, l: Accounts, f: Accounts, blockId: nat)
    requires tx.TxConfig? && Tracks(k, l, f) && cxL.codec == cxF.codec && ConfigUpdate(cxF, tx, f, blockId, true).1.Done?
    ensures ConfigUpdate(cxL, tx, l, blockId, false).1.Done? <==> ID_GENESIS in k.known
    ensures ConfigUpdate(cxL, tx, l, blockId, false).1.Done? ==>
      Tracks(Learned(k, tx), ConfigUpdate(cxL, tx, l, blockId, false).0, ConfigUpdate(cxF, tx, f, blockId, true).0)
  {
    hide VerifyBalance, ReplaceAndPay, Tracks, CheckGenesisWallet, CheckConfigChange;
    var wallet := cxL.codec.genesisMetaOf(tx.meta).value.genesis.wallet;
    assert VerifyBalance(f, ID_GENESIS, 0, 0, wallet.balances).Done?;
    KeysKnown(k, l, f);
    if ID_GENESIS in l {
      VerifiedTracked(k, l, f, ID_GENESIS, 0, wallet.balances);
      ConfigReplaces(l, wallet, blockId);
      ConfigReplaces(f, wallet, blockId);
      Configured(k, l, f);
      ReplaceTracked(k.(configured := true), l, f, ID_GENESIS, wallet, blockId, 0);
      assert k.known + {ID_GENESIS} == k.known;
    } else {
      UnknownFails(l, wallet);
    }
  }

  lemma UnknownFails(l: Accounts, wallet: Wallet)
    requires ID_GENESIS !in l
    ensures VerifyBalance(l, ID_GENESIS, 0, 0, wallet.balances).Failed?
  {
  }

  lemma Configured(k: Knowledge, l: Accounts, f: Accounts)
    requires Tracks(k, l, f)
    ensures Tracks(k.(configured := true), l, f)
  {
  }

  lemma EndUserAppliesIff(k: Knowledge, cxL: Context, cxF: Context, tx: TypedTx, l: Accounts, f: Accounts)
    requires tx.TxEndUser? && tx.walletId != ID_FEE && Tracks(k, l, f) && SameReading(k, cxL, cxF, l, f) && EndUser(cxF, tx, f).1.Done?
    ensures EndUser(cxL, tx, l).1.Done? <==> Applicable(k, f, tx)
    ensures EndUser(cxL, tx, l).1.Done? ==> Tracks(Learned(k, tx), EndUser(cxL, tx, l).0, EndUser(cxF, tx, f).0)
  {
    hide UserAccountFromBlock, GenesisMetaFromBlock, MinFeeForSize, Absorb, AgreeOn;
    var id := tx.walletId;
    if id in l {
      BalanceTracked(k, l, f, id, ID_GENESIS);
      assert k.configured ==>
        MinFeeForAccount(cxL.codec, cxL.ledger, cxF.config.value, l, id) == MinFeeForAccount(cxF.codec, cxF.ledger, cxF.config.value, f, id);
      if ID_RECYCLE in l {
        WriteOffTracked(k, l, f, id);
      }
    }
  }

  lemma WriteOffTracked(k: Knowledge, l: Accounts, f: Accounts, id: Id)
    requires Tracks(k, l, f) && id in l && id != ID_FEE && ID_RECYCLE in l
    ensures WriteOff(l, id).1.Done? && WriteOff(f, id).1.Done?
    ensures Tracks(k.(known := k.known - {id}), WriteOff(l, id).0, WriteOff(f, id).0)
  {
    hide Absorb;
    assert AgreeOn(ID_RECYCLE, l[ID_RECYCLE], f[ID_RECYCLE]) && AgreeOn(id, l[id], f[id]);
    assert l[ID_RECYCLE] == f[ID_RECYCLE] && l[id] == f[id];
    var recycle := l[ID_RECYCLE];
    RecycleAgrees(recycle.(wallet := recycle.wallet.(balances := Absorb(recycle.wallet.balances, l[id].wallet.balances))));
  }

  /** For every record that the running chain accepts: the joiner applies it if and only if the record is applicable to what the
      joiner knows, and keeps track then. */
  lemma HandleAppliesIff(k: Knowledge, cxL: Context, cxF: Context, tx: TypedTx, l: Accounts, f: Accounts, blockId: nat)
    requires !tx.TxGenesis? && !(tx.TxEndUser? && tx.walletId == ID_FEE)
    requires Tracks(k, l, f) && SameReading(k, cxL, cxF, l, f) && Handle(cxF, tx, f, map[], blockId, true).1.Done?
    ensures Handle(cxL, tx, l, map[], blockId, false).1.Done? <==> Applicable(k, f, tx)
    ensures Handle(cxL, tx, l, map[], blockId, false).1.Done? ==>
      Tracks(Learned(k, tx), Handle(cxL, tx, l, map[], blockId, false).0, Handle(cxF, tx, f, map[], blockId, true).0)
  {
    hide Tracks, TransferLoose, Transfer, NewUser, Upsert, GenesisRenewal, ConfigUpdate, EndUser, CheckFee, SameReading;
    assert cxL.codec == cxF.codec by {
      SameCodec(k, cxL, cxF, l, f);
    }
    KeysKnown(k, l, f);
    match tx {
      case TxDefault(_, _, _, _, _, _, _) =>
        TransferAppliesIff(k, tx, l, f);
        if TransferLoose(tx, l).1.Done? {
          TransferTracked(k, tx, l, f);
        }
      case TxNewUser(_, _, _, _, _, _) => NewUserAppliesIff(k, cxL, cxF, tx, l, f, blockId);
      case TxConfig(_, _, _) => ConfigAppliesIff(k, cxL, cxF, tx, l, f, blockId);
      case TxUserUpdate(id, fee, meta, _) => UpsertAppliesIff(k, cxL, cxF, id, fee, meta, l, f, blockId);
      case TxRenewal(id, fee, meta) =>
        if id == ID_GENESIS {
          GenesisRenewalApplies(k, cxL, cxF, tx, l, f, blockId);
        } else {
          UpsertAppliesIff(k, cxL, cxF, id, fee, meta, l, f, blockId);
        }
      case TxEndUser(_, _, _) => EndUserAppliesIff(k, cxL, cxF, tx, l, f);
    }
  }

  lemma SameCodec(k: Knowledge, cxL: Context, cxF: Context, l: Accounts, f: Accounts)
    requires SameReading(k, cxL, cxF, l, f)
    ensures cxL.codec == cxF.codec
  {
  }

  // ----- blocks -----

  /** Every known account was set at block `start` or later. */
  ghost predicate KnownSince(k: Knowledge, f: Accounts, start: nat) {
    forall id | id in k.known && id in f :: f[id].blockId >= start
  }

  lemma UpdateSettles(cx: Context, tx: TypedTx, b: Accounts, blockId: nat)
    requires tx.TxUserUpdate? && Handle(cx, tx, b, map[], blockId, true).1.Done?
    ensures Settled(Handle(cx, tx, b, map[], blockId, true).0, tx.walletId, blockId)
  {
    hide ReplaceAndPay, CheckFee, VerifyBalance, CheckWallet;
    ReplaceStamps(b, tx.walletId, cx.codec.userAccountOf(tx.meta).value.wallet, blockId, tx.fee);
  }

  lemma NewUserIsNew(cx: Context, tx: TypedTx, b: Accounts, blockId: nat)
    requires tx.TxNewUser? && Handle(cx, tx, b, map[], blockId, true).1.Done?
    ensures tx.toWalletId !in b
  {
    hide Transfer, CheckFee, VerifySpendingPower, CheckWallet;
  }

  lemma LearnedSince(k: Knowledge, cx: Context, tx: TypedTx, f: Accounts, blockId: nat, start: nat)
    requires KnownSince(k, f, start) && start <= blockId && !tx.TxGenesis? && Handle(cx, tx, f, map[], blockId, true).1.Done?
    ensures KnownSince(Learned(k, tx), Handle(cx, tx, f, map[], blockId, true).0, start)
  {
    hide Handle;
    HandleStamps(cx, tx, f, map[], blockId);
    match tx {
      case TxNewUser(_, _, _, _, _, _) => NewUserIsNew(cx, tx, f, blockId);
      case TxUserUpdate(_, _, _, _) => UpdateSettles(cx, tx, f, blockId);
      case TxRenewal(_, _, _) => RenewalSettles(cx, tx, f, map[], blockId);
      case _ =>
    }
  }

  /** Records that the running chain accepts one after another, from position `i` on, are applicable one after another. */
  predicate BlockApplicable(codec: Codec, l: Ledger, w: World, block: Block, i: nat, k: Knowledge)
    requires i <= |block.records|
    decreases |block.records| - i
  {
    i == |block.records| ||
    match codec.decode(block.records[i])
    case None => false
    case Some(tx) =>
      && Applicable(k, w.accounts, tx)
      && BlockApplicable(codec, l, ProcessRecord(codec, l, w, block.records[i], block, true).0, block, i + 1, Learned(k, tx))
  }

  function LearnedFrom(codec: Codec, records: seq<Record>, i: nat, k: Knowledge): Knowledge
    requires i <= |records|
    decreases |records| - i
  {
    if i == |records| then k
    else
      match codec.decode(records[i])
      case None => k
      case Some(tx) => LearnedFrom(codec, records, i + 1, Learned(k, tx))
  }

  /** The joiner in the middle of a block. */
  ghost predicate Following(k: Knowledge, lL: Ledger, lF: Ledger, wL: World, wF: World, start: nat) {
    && Tracks(k, wL.accounts, wF.accounts) && KnownSince(k, wF.accounts, start)
    && wF.config.Some? && wL.config == (if k.configured then wF.config else None)
    && forall id: nat | start <= id && lF.Has(id) :: ReadBlock(lL, id) == ReadBlock(lF, id)
  }

  lemma FollowingReads(codec: Codec, k: Knowledge, lL: Ledger, lF: Ledger, wL: World, wF: World, start: nat)
    requires Following(k, lL, lF, wL, wF, start)
    ensures SameReading(k, ContextOf(codec, lL, wL), ContextOf(codec, lF, wF), wL.accounts, wF.accounts)
    ensures Tracks(k, wL.accounts, wF.accounts)
  {
  }

  lemma SignaturesFollow(codec: Codec, k: Knowledge, l: Accounts, f: Accounts, rec: Record, leader: Id)
    requires Tracks(k, l, f) && ValidateTxSignatures(codec, f, rec, leader, true).Done?
    ensures ValidateTxSignatures(codec, l, rec, leader, false).Done?
  {
    var signer := SignerOf(codec.decode(rec).value, leader);
    if signer in l {
      assert AgreeOn(signer, l[signer], f[signer]);
      SameWalletKeys(l[signer], f[signer]);
    }
  }

  lemma SameWalletKeys(a: Account, b: Account)
    requires a.wallet.(balances := map[]) == b.wallet.(balances := map[])
    ensures a.wallet.publicKeys == b.wallet.publicKeys && a.wallet.minSignatures == b.wallet.minSignatures
    ensures a.wallet.keyType == b.wallet.keyType
  {
    assert a.wallet.(balances := map[]).publicKeys == b.wallet.(balances := map[]).publicKeys;
  }

  lemma RecordFollowsIff(codec: Codec, k: Knowledge, lL: Ledger, lF: Ledger, wL: World, wF: World, block: Block, i: nat, start: nat)
    requires block.index != 0 && start <= block.index && i < |block.records| && KeepsFeeAccount(codec, block.records)
    requires Following(k, lL, lF, wL, wF, start) && ProcessRecord(codec, lF, wF, block.records[i], block, true).1.Done?
    ensures codec.decode(block.records[i]).Some?
    ensures var tx := codec.decode(block.records[i]).value; var r := ProcessRecord(codec, lL, wL, block.records[i], block, false);
      && (r.1.Done? <==> Applicable(k, wF.accounts, tx))
      && (r.1.Done? ==> Following(Learned(k, tx), lL, lF, r.0, ProcessRecord(codec, lF, wF, block.records[i], block, true).0, start))
  {
    hide Tracks, Handle, Idempotency, ValidateTxSignatures, SameReading, Applicable, KnownSince;
    var tx := codec.decode(block.records[i]).value;
    FollowingReads(codec, k, lL, lF, wL, wF, start);
    SignaturesFollow(codec, k, wL.accounts, wF.accounts, block.records[i], block.slotLeader);
    NotIdempotent(codec, lL, wL, tx, block.slot);
    HandleAppliesIff(k, ContextOf(codec, lL, wL), ContextOf(codec, lF, wF), tx, wL.accounts, wF.accounts, block.index);
    LearnedSince(k, ContextOf(codec, lF, wF), tx, wF.accounts, block.index, start);
    LearnedConfiguration(k, tx);
  }

  lemma NotIdempotent(codec: Codec, l: Ledger, w: World, tx: TypedTx, slot: nat)
    ensures Idempotency(ContextOf(codec, l, w), IdempotencyOf(tx).0, IdempotencyOf(tx).1, slot, false) == Done
  {
  }

  lemma LearnedConfiguration(k: Knowledge, tx: TypedTx)
    ensures Learned(k, tx).configured == (k.configured || tx.TxConfig?)
  {
  }

  lemma {:induction false} BlockFollowsIff(codec: Codec, k: Knowledge, lL: Ledger, lF: Ledger, wL: World, wF: World, block: Block, i: nat, start: nat)
    requires block.index != 0 && start <= block.index && i <= |block.records| && KeepsFeeAccount(codec, block.records)
    requires Following(k, lL, lF, wL, wF, start) && ProcessRecords(codec, lF, wF, block, i, true).1.Done?
    ensures ProcessRecords(codec, lL, wL, block, i, false).1.Done? <==> BlockApplicable(codec, lF, wF, block, i, k)
    ensures ProcessRecords(codec, lL, wL, block, i, false).1.Done? ==>
      Following(LearnedFrom(codec, block.records, i, k), lL, lF, ProcessRecords(codec, lL, wL, block, i, false).0,
                ProcessRecords(codec, lF, wF, block, i, true).0, start)
    decreases |block.records| - i
  {
    hide Following, ProcessRecord, KeepsFeeAccount, Applicable, Learned;
    if i < |block.records| {
      RecordFollowsIff(codec, k, lL, lF, wL, wF, block, i, start);
      var tx := codec.decode(block.records[i]).value;
      var next := ProcessRecord(codec, lL, wL, block.records[i], block, false);
      if next.1.Done? {
        BlockFollowsIff(codec, Learned(k, tx), lL, lF, next.0, ProcessRecord(codec, lF, wF, block.records[i], block, true).0,
                        block, i + 1, start);
      }
    }
  }

  // ----- whole runs -----

  /** The blocks of a run are applicable one after another. */
  predicate RunApplicable(codec: Codec, st: ChainState, events: seq<Event>, k: Knowledge)
    decreases |events|
  {
    events == [] ||
    var next := Step(codec, st, events[0]).0;
    match events[0]
    case Refresh(_) => RunApplicable(codec, next, events[1..], k)
    case Offer(node, _) =>
      && BlockApplicable(codec, st.ledger, st.world, node.block, 0, k)
      && RunApplicable(codec, next, events[1..], LearnedFrom(codec, node.block.records, 0, k))
  }

  /** The joiner before the next block of the run. */
  ghost predicate InPace(k: Knowledge, joiner: ChainState, st: ChainState, start: nat) {
    && Tracks(k, joiner.world.accounts, st.world.accounts) && KnownSince(k, st.world.accounts, start)
    && st.world.config.Some? && joiner.world.config == (if k.configured then st.world.config else None)
    && joiner.ledger.start == start
  }

  lemma SuffixReads(joiner: Ledger, lF: Ledger, full: Ledger)
    requires SuffixOf(joiner, full) && lF.start == 0 && lF.nodes <= full.nodes
    ensures forall id: nat | joiner.start <= id && lF.Has(id) :: ReadBlock(joiner, id) == ReadBlock(lF, id)
  {
    forall id: nat | joiner.start <= id && lF.Has(id)
      ensures ReadBlock(joiner, id) == ReadBlock(lF, id)
    {
      assert joiner.nodes[id - joiner.start] == full.nodes[id] == lF.nodes[id];
    }
  }

  lemma LooseSequence(st: ChainState, node: ChainNode, joiner: Ledger, full: Ledger)
    requires BaseInvariant(st) && AtTip(st, node) && CheckSequence(st.ledger, node.block).Done?
    requires SuffixOf(joiner, full) && st.ledger.nodes <= full.nodes && joiner.start <= node.block.index && joiner.Has(node.block.index)
    ensures CheckSequence(joiner, node.block).Done?
  {
    if node.block.index > joiner.start {
      var i := node.block.index - 1;
      assert joiner.nodes[i - joiner.start] == full.nodes[i] == st.ledger.nodes[i];
    }
  }

  /** One block of the replay. */
  lemma StepFollowsIff(codec: Codec, k: Knowledge, st: ChainState, node: ChainNode, appliedAt: int, joiner: ChainState, full: Ledger,
                       now: int, start: nat)
    requires BaseInvariant(st) && AtTip(st, node) && AddBlock(codec, st, node, appliedAt).1.Done? && 0 < start <= st.ledger.Next()
    requires InPace(k, joiner, st, start) && SuffixOf(joiner.ledger, full) && st.ledger.nodes <= full.nodes
    requires joiner.ledger.Has(node.block.index) && KeepsFeeAccount(codec, node.block.records)
    ensures ProcessBlock(codec, joiner, node, false, now).1.Done? <==> BlockApplicable(codec, st.ledger, st.world, node.block, 0, k)
    ensures ProcessBlock(codec, joiner, node, false, now).1.Done? ==>
      InPace(LearnedFrom(codec, node.block.records, 0, k), ProcessBlock(codec, joiner, node, false, now).0,
             AddBlock(codec, st, node, appliedAt).0, start)
  {
    hide AddBlock, ProcessRecords, BlockApplicable, LearnedFrom, CheckSequence, KeepsFeeAccount, Linked, Orderly, Tracks, KnownSince,
      ValidateStrict, Rotate;
    OfferUnfolds(codec, st, node, appliedAt);
    OfferKeepsBase(codec, st, node, appliedAt);
    IndexPositive(st, node);
    LooseSequence(st, node, joiner.ledger, full);
    Reload.HashHeld(codec, st, node, appliedAt);
    SuffixReads(joiner.ledger, st.ledger, full);
    BlockFollowsIff(codec, k, joiner.ledger, st.ledger, joiner.world, st.world, node.block, 0, start);
  }

  lemma LooseReplayUnfolds(codec: Codec, st: ChainState, id: nat, now: int)
    requires id > 0 && st.ledger.Has(id) && st.world.consensus.schedule.IsSet() && st.ledger.At(id).index == id
    ensures var node := st.ledger.nodes[id - st.ledger.start];
      var r := ProcessBlock(codec, Reload.Refreshed(st, node.block), node, false, now);
      && (Replay(codec, st, id, false, now).1.Done? <==> r.1.Done? && Replay(codec, r.0, id + 1, false, now).1.Done?)
      && (r.1.Done? ==> Replay(codec, st, id, false, now) == Replay(codec, r.0, id + 1, false, now))
  {
    hide ProcessBlock, RefreshStakes;
  }

  lemma LooseKeepsSchedule(codec: Codec, st: ChainState, node: ChainNode, now: int)
    requires node.block.index != 0
    ensures ProcessBlock(codec, st, node, false, now).0.world.consensus == st.world.consensus
    ensures ProcessBlock(codec, st, node, false, now).0.ledger == st.ledger
  {
    hide ProcessRecord, ProcessRecords, ValidateBlock;
    RecordsKeepConsensus(codec, st.ledger, st.world, node.block, 0, false);
  }

  /** The rest of the run replayed loosely: it succeeds if and only if its blocks are applicable to what the joiner knows. */
  lemma {:induction false} ReplaySucceedsIff(codec: Codec, k: Knowledge, st: ChainState, events: seq<Event>, joiner: ChainState, now: int, start: nat)
    requires BaseInvariant(st) && Accepted(codec, st, events) && 0 < start <= st.ledger.Next()
    requires InPace(k, joiner, st, start) && SuffixOf(joiner.ledger, Run(codec, st, events).0.ledger)
    requires KeepsFeeAlong(codec, joiner.ledger.nodes) && joiner.world.consensus.schedule.IsSet()
    ensures Replay(codec, joiner, st.ledger.Next(), false, now).1.Done? <==> RunApplicable(codec, st, events, k)
    decreases |events|
  {
    hide AddBlock, BaseInvariant, AtTip, ProcessBlock, InPace, BlockApplicable, LearnedFrom, RefreshStakes, KeepsFeeAccount;
    var full := Run(codec, st, events).0.ledger;
    if events == [] {
      assert !joiner.ledger.Has(st.ledger.Next());
    } else if events[0].Refresh? {
      RefreshKeepsBase(st, events[0].epoch);
      RefreshKeepsPace(k, joiner, st, events[0].epoch, start);
      ReplaySucceedsIff(codec, k, Step(codec, st, events[0]).0, events[1..], joiner, now, start);
    } else {
      var node := events[0].node;
      var after := AddBlock(codec, st, node, events[0].now).0;
      OfferKeepsBase(codec, st, node, events[0].now);
      OfferAppends(codec, st, node, events[0].now);
      RunExtends(codec, after, events[1..]);
      PaceStarts(k, joiner, st, start);
      Reload.TipIndex(st, node);
      JoinerHoldsTip(st, node, after, Run(codec, after, events[1..]).0, joiner);
      IndexPositive(st, node);
      var refreshed := Reload.Refreshed(joiner, node.block);
      RefreshedInPace(k, joiner, refreshed, st, start);
      assert st.ledger.nodes <= full.nodes by {
        assert st.ledger.nodes <= after.ledger.nodes;
      }
      StepFollowsIff(codec, k, st, node, events[0].now, refreshed, full, now, start);
      LooseReplayUnfolds(codec, joiner, st.ledger.Next(), now);
      LooseKeepsSchedule(codec, refreshed, node, now);
      var next := ProcessBlock(codec, refreshed, node, false, now);
      if next.1.Done? {
        ReplaySucceedsIff(codec, LearnedFrom(codec, node.block.records, 0, k), after, events[1..], next.0, now, start);
      }
    }
  }

  lemma PaceStarts(k: Knowledge, joiner: ChainState, st: ChainState, start: nat)
    requires InPace(k, joiner, st, start)
    ensures joiner.ledger.start == start
  {
  }

  lemma RefreshKeepsPace(k: Knowledge, joiner: ChainState, st: ChainState, epoch: nat, start: nat)
    requires InPace(k, joiner, st, start)
    ensures InPace(k, joiner, st.(world := RefreshStakes(st.world, epoch)), start)
  {
  }

  lemma RefreshedInPace(k: Knowledge, joiner: ChainState, refreshed: ChainState, st: ChainState, start: nat)
    requires InPace(k, joiner, st, start) && refreshed.ledger == joiner.ledger
    requires refreshed.world.accounts == joiner.world.accounts && refreshed.world.config == joiner.world.config
    ensures InPace(k, refreshed, st, start)
  {
  }

  // ----- every account is filed under its own id -----

  predicate OwnIds(b: Accounts) {
    forall id | id in b :: b[id].id == id
  }

  lemma IdsOwned(b: Accounts)
    requires OwnIds(b)
    ensures forall id | id in b :: b[id].id == id
  {
  }

  lemma TransferKeepsIds(b: Accounts, from: Id, to: Id, token: Id, amount: u64, fee: u64)
    requires OwnIds(b)
    ensures OwnIds(Transfer(b, from, to, token, amount, fee).0)
  {
    hide VerifySpendingPower, BalanceOf;
  }

  lemma ReplaceKeepsIds(b: Accounts, id: Id, wallet: Wallet, blockId: nat, fee: u64)
    requires OwnIds(b)
    ensures OwnIds(ReplaceAndPay(b, id, wallet, blockId, fee).0)
  {
    hide BalanceOf;
  }

  lemma HandleKeepsIds(cx: Context, tx: TypedTx, b: Accounts, blockId: nat)
    requires !tx.TxGenesis? && OwnIds(b)
    ensures OwnIds(Handle(cx, tx, b, map[], blockId, true).0)
  {
    hide CheckFee, VerifyBalance, VerifySpendingPower, Transfer, ReplaceAndPay, MinFeeForAccount, Absorb, OwnIds, CheckWallet, CheckGenesisWallet;
    match tx {
      case TxDefault(token, from, to, amount, fee, _, _) => TransferKeepsIds(b, from, to, token, amount, fee);
      case TxNewUser(from, to, amount, fee, meta, _) =>
        if cx.codec.userAccountOf(meta).Some? {
          var a := Account.Account(to, cx.codec.userAccountOf(meta).value.wallet.(balances := map[]), blockId);
          PutKeepsIds(b, a);
          TransferKeepsIds(b[to := a], from, to, ID_GENESIS, amount, fee);
        }
      case TxConfig(_, meta, _) =>
        if cx.codec.genesisMetaOf(meta).Some? {
          PutKeepsIds(b, Account.Account(ID_GENESIS, cx.codec.genesisMetaOf(meta).value.genesis.wallet, blockId));
        }
      case TxUserUpdate(id, fee, meta, _) =>
        if cx.codec.userAccountOf(meta).Some? {
          ReplaceKeepsIds(b, id, cx.codec.userAccountOf(meta).value.wallet, blockId, fee);
        }
      case TxRenewal(id, fee, meta) =>
        if id == ID_GENESIS && cx.codec.genesisMetaOf(meta).Some? {
          ReplaceKeepsIds(b, id, cx.codec.genesisMetaOf(meta).value.genesis.wallet, blockId, fee);
        }
        if id != ID_GENESIS && cx.codec.userAccountOf(meta).Some? {
          ReplaceKeepsIds(b, id, cx.codec.userAccountOf(meta).value.wallet, blockId, fee);
        }
      case TxEndUser(id, _, _) => WriteOffKeepsIds(b, id);
    }
  }

  lemma PutKeepsIds(b: Accounts, a: Account)
    requires OwnIds(b)
    ensures OwnIds(b[a.id := a])
  {
  }

  lemma WriteOffKeepsIds(b: Accounts, id: Id)
    requires OwnIds(b)
    ensures OwnIds(WriteOff(b, id).0)
  {
    hide Absorb;
  }

  lemma {:induction false} RecordsKeepIds(codec: Codec, l: Ledger, w: World, block: Block, i: nat)
    requires i <= |block.records| && OwnIds(w.accounts)
    requires block.index != 0 || forall j | i <= j < |block.records| ::
      codec.decode(block.records[j]).Some? && !codec.decode(block.records[j]).value.TxGenesis?
    ensures OwnIds(ProcessRecords(codec, l, w, block, i, true).0.accounts)
    decreases |block.records| - i
  {
    hide ValidateTxSignatures, Handle, OwnIds, Idempotency;
    if i < |block.records| {
      var decoded := codec.decode(block.records[i]);
      if decoded.Some? && !decoded.value.TxGenesis? {
        HandleKeepsIds(ContextOf(codec, l, w), decoded.value, w.accounts, block.index);
      }
      var (next, s) := ProcessRecord(codec, l, w, block.records[i], block, true);
      if s.Done? {
        RecordsKeepIds(codec, l, next, block, i + 1);
      }
    }
  }

  lemma {:induction false} RunKeepsIds(codec: Codec, st: ChainState, events: seq<Event>)
    requires BaseInvariant(st) && Accepted(codec, st, events) && OwnIds(st.world.accounts)
    ensures OwnIds(Run(codec, st, events).0.world.accounts)
    decreases |events|
  {
    hide AddBlock, BaseInvariant, AtTip, OwnIds, ProcessRecords;
    if events != [] {
      var next := Step(codec, st, events[0]).0;
      match events[0] {
        case Refresh(epoch) => RefreshKeepsBase(st, epoch);
        case Offer(node, at) =>
          OfferKeepsBase(codec, st, node, at);
          OfferUnfolds(codec, st, node, at);
          IndexPositive(st, node);
          RecordsKeepIds(codec, st.ledger, st.world, node.block, 0);
      }
      RunKeepsIds(codec, next, events[1..]);
    }
  }

  /** The genesis block files its accounts under their own ids. */
  lemma BootOwnsIds(codec: Codec, boot: ChainState, schedule: Ouroboros.Schedule, genesis: ChainNode, now: int)
    requires Booted(codec, boot, schedule, genesis, now)
    ensures OwnIds(boot.world.accounts)
  {
    hide ProcessRecord, ProcessRecords, ValidateGenesisBlock, OwnIds;
    var w1 := BootUnfolds(codec, boot, schedule, genesis, now);
    AtMostOnce.GenesisRecordsAreOrdinary(codec, genesis);
    OneIdOwned(w1.accounts[ID_GENESIS].wallet);
    RecordsKeepIds(codec, Initial(schedule).ledger, w1, genesis.block, 1);
  }

  lemma OneIdOwned(w: Wallet)
    ensures OwnIds(map[ID_GENESIS := Account.Account(ID_GENESIS, w, 0)])
  {
  }

  // ----- from the last checkpoint -----

  lemma EmptyInPace(joiner: ChainState, st: ChainState)
    requires joiner.world.accounts == map[] && st.world.config.Some? && forall id | id in st.world.accounts :: st.world.accounts[id].id == id
    requires joiner.world.config.Some? ==> joiner.world.config == st.world.config
    ensures InPace(Knowledge({}, 0, joiner.world.config.Some?), joiner, st, joiner.ledger.start)
  {
  }

  /** Starting from the last checkpoint of a running chain, with no accounts and the chain's configuration there or none: the load
      succeeds if and only if the slot schedule is set and the blocks from there on are applicable to a node that knows nothing
      yet; and then it holds the accounts of the running chain. */
  lemma CheckpointSyncIff(codec: Codec, boot: ChainState, events: seq<Event>, joiner: ChainState, now: int) returns (k: nat)
    requires CheckpointInvariant(boot) && boot.ledger.Next() == 1 && OwnIds(boot.world.accounts)
    requires Accepted(codec, boot, events) && RotatesSafelyAlong(codec, boot, events)
    requires var full := Run(codec, boot, events).0;
      && full.checkpoint.lastId > 0 && SuffixOf(joiner.ledger, full.ledger) && joiner.ledger.start == full.checkpoint.lastId
      && KeepsFeeAlong(codec, joiner.ledger.nodes)
    ensures k <= |events|
    ensures var full, middle := Run(codec, boot, events).0, Run(codec, boot, events[..k]).0;
      var loaded := LoadFromLedger(codec, joiner, full.checkpoint.lastId, now);
      && middle.ledger.Next() == full.checkpoint.lastId
      && ((joiner.world.config.Some? ==> joiner.world.config == middle.world.config) ==>
            (loaded.1.Done? <==>
              && joiner.world.consensus.schedule.IsSet()
              && RunApplicable(codec, middle, events[k..], Knowledge({}, 0, joiner.world.config.Some?))))
      && (loaded.1.Done? ==> Synchronized(loaded.0.world.accounts, full.world.accounts))
  {
    hide AddBlock, AtTip, RotatesSafely, KeepsFeeAccount, Replay, RunApplicable, InPace, Synchronized, OwnIds, Linked, Orderly;
    var full := Run(codec, boot, events).0;
    var start := full.checkpoint.lastId;
    CheckpointHolds(codec, boot, events);
    k := PointOfBlock(codec, boot, events, start);
    RunSplits(codec, boot, events, k);
    BaseHolds(codec, boot, events[..k]);
    RunKeepsIds(codec, boot, events[..k]);
    var middle := Run(codec, boot, events[..k]).0;
    var reset := ChainState(joiner.ledger, joiner.world.(accounts := map[]), Checkpoint(start, start));
    if joiner.world.config.Some? ==> joiner.world.config == middle.world.config {
      if joiner.world.consensus.schedule.IsSet() {
        IdsOwned(middle.world.accounts);
        EmptyInPace(reset, middle);
        ReplaySucceedsIff(codec, Knowledge({}, 0, joiner.world.config.Some?), middle, events[k..], reset, now, start);
      } else {
        UnsetFails(codec, reset, start, now);
      }
    }
    if LoadFromLedger(codec, joiner, start, now).1.Done? {
      CheckpointSyncIsExact(codec, boot, events, joiner, now);
    }
  }

  lemma UnsetFails(codec: Codec, st: ChainState, id: nat, now: int)
    requires id > 0 && st.ledger.Has(id) && !st.world.consensus.schedule.IsSet()
    ensures Replay(codec, st, id, false, now).1.Failed?
  {
    hide ProcessBlock, RefreshStakes;
  }
}
