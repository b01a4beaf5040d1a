/** When each kind of record is accepted and exactly what it then does, in terms of balances, wallets and metadata. */
module HandlerOutcomes {
  import opened Numbers
  import opened Outcomes
  import opened ChainTypes
  import opened Bank
  import opened LedgerView
  import opened TxFees
  import opened TxHandlers
  import opened Spending

  // ----- fees -----

  /** A record is charged enough if and only if there is a configuration that prices the bytes it is charged for, and it pays that
      price at least. */
  lemma FeeAcceptedIff(cx: Context, tx: TypedTx, size: nat, k: nat)
    requires cx.config.Some? ==>
      ChargedFor(cx.codec, cx.config.value, tx, size) && StartedBeyond(k, size, cx.config.value.freeCustomMetaSize)
    ensures CheckFee(cx, tx).Done? <==>
      && cx.config.Some?
      && var config := cx.config.value; var (a, b, c) := Given(config.minFeeCoefficients);
         && config.minFeeCoefficients != [] && size <= config.maxCustomMetaSize
         && a + b * k + c * k * k <= 0x7fff_ffff_ffff_ffff && tx.fee >= a + b * k + c * k * k
  {
    hide MinFeeForSize, MinFeeForTx, ChargedFor;
    if cx.config.Some? {
      MinFeeForTxIs(cx.codec, cx.config.value, tx);
      FeeValueIff(cx.config.value, size, k);
    }
  }

  /** Without anything to charge for, no fee is enough. */
  lemma UnreadableIsRefused(cx: Context, tx: TypedTx)
    requires cx.config.Some? && forall size: nat :: !ChargedFor(cx.codec, cx.config.value, tx, size)
    ensures CheckFee(cx, tx) == Failed(Deserialize)
  {
    hide MinFeeForTx, ChargedFor;
    MinFeeForTxIs(cx.codec, cx.config.value, tx);
  }

  // ----- payments -----

  /** What a sender may spend and others can take, of native tokens or of another token. */
  predicate CanPay(b: Accounts, from: Id, to: Id, token: Id, amount: nat, fee: nat) {
    && amount <= 0x7fff_ffff_ffff_ffff && fee <= 0x7fff_ffff_ffff_ffff && from in b
    && (if token == ID_GENESIS then BalanceOf(b, from, ID_GENESIS) - amount - fee >= Floor(b[from], ID_GENESIS)
        else BalanceOf(b, from, token) - amount >= Floor(b[from], token) && BalanceOf(b, from, ID_GENESIS) - fee >= 0)
    && BalanceOf(b, to, token) + amount <= 0x7fff_ffff_ffff_ffff
    && (fee > 0 ==>
         && (ID_FEE in b || ID_FEE == to)
         && FeeAccountHolds(b, from, to, token, amount, fee) + fee <= 0x7fff_ffff_ffff_ffff)
  }

  lemma PaymentIff(cx: Context, tx: TypedTx, b: Accounts, existing: Accounts, blockId: nat)
    requires tx.TxDefault?
    ensures Handle(cx, tx, b, existing, blockId, true).1.Done? <==>
      CheckFee(cx, tx).Done? && tx.toWalletId in b && CanPay(b, tx.fromWalletId, tx.toWalletId, tx.tokenId, tx.amount, tx.fee)
    ensures Handle(cx, tx, b, existing, blockId, true).1.Done? ==>
      Handle(cx, tx, b, existing, blockId, true).0 == Transfer(b, tx.fromWalletId, tx.toWalletId, tx.tokenId, tx.amount, tx.fee).0
  {
    hide CheckFee, Transfer;
    PaymentAcceptedIff(b, tx.fromWalletId, tx.toWalletId, tx.tokenId, tx.amount, tx.fee);
  }

  /** A payment on the loose path, by what is known of its parties: with both it is a payment as any other; without the receiver the sender
      must have the means, an issuer being allowed debt for the fee as well, and a known fee account takes the fee; without the sender the
      receiver must have room; and with neither it always passes. */
  lemma LoosePaymentIff(cx: Context, tx: TypedTx, b: Accounts, existing: Accounts, blockId: nat)
    requires tx.TxDefault? && tx.amount <= INT64_MAX && tx.fee <= INT64_MAX
    ensures var (from, to) := (tx.fromWalletId, tx.toWalletId); var (token, amount, fee) := (tx.tokenId, tx.amount, tx.fee);
      Handle(cx, tx, b, existing, blockId, false).1.Done? <==>
        if from in b && to in b then (fee > 0 ==> ID_FEE in b) && CanPay(b, from, to, token, amount, fee)
        else if from in b then
          && (if token == ID_GENESIS then BalanceOf(b, from, ID_GENESIS) - amount - fee >= Floor(b[from], ID_GENESIS)
              else && BalanceOf(b, from, token) - amount >= Floor(b[from], token)
                   && (fee > 0 ==> BalanceOf(b, from, ID_GENESIS) - fee >= Floor(b[from], ID_GENESIS)))
          && (fee > 0 && ID_FEE in b ==> FeeAccountHolds(b, from, to, token, amount, fee) + fee <= 0x7fff_ffff_ffff_ffff)
        else to in b ==> BalanceOf(b, to, token) + amount <= 0x7fff_ffff_ffff_ffff
  {
    hide Transfer, Withdraw, Deposit;
    var (from, to) := (tx.fromWalletId, tx.toWalletId);
    if from in b && to in b {
      PaymentAcceptedIff(b, from, to, tx.tokenId, tx.amount, tx.fee);
    } else if from in b {
      if tx.tokenId == ID_GENESIS {
        WithdrawIff(b, from, ID_GENESIS, tx.amount + tx.fee);
      } else {
        WithdrawIff(b, from, tx.tokenId, tx.amount);
        var paid := Withdraw(b, from, tx.tokenId, tx.amount).0;
        WithdrawIff(paid, from, ID_GENESIS, tx.fee);
      }
      DepositIff(WithdrawLoose(tx, b).0, ID_FEE, ID_GENESIS, tx.fee);
    } else {
      DepositIff(b, to, tx.tokenId, tx.amount);
    }
  }

  // ----- new accounts -----

  predicate GoodWallet(w: Wallet) {
    w.keyType == TK_ED25519 && w.publicKeys != [] && w.minSignatures >= 1
  }

  /** The payload opens an account with the amount and nothing else. The balance is compared as an unsigned number. */
  predicate OpensWith(codec: Codec, meta: Bytes, amount: nat) {
    && codec.userAccountOf(meta).Some?
    && var w := codec.userAccountOf(meta).value.wallet;
       && GoodWallet(w) && w.balances.Keys == {ID_GENESIS}
       && (w.balances[ID_GENESIS] - amount) % 0x1_0000_0000_0000_0000 == 0
  }

  lemma OneBalance(balances: Balances)
    ensures |balances| == 1 && ID_GENESIS in balances <==> balances.Keys == {ID_GENESIS}
  {
    if |balances| == 1 && ID_GENESIS in balances {
      assert |balances.Keys| == 1 && {ID_GENESIS} <= balances.Keys;
      assert |balances.Keys - {ID_GENESIS}| == 0;
    }
    if balances.Keys == {ID_GENESIS} {
      assert |balances.Keys| == 1;
    }
  }

  /** A new account is opened if and only if the fee is enough, nobody has its id, it is a user's or opened by the genesis account, its
      payload opens it with the amount, and the sender can pay. */
  lemma NewUserIff(cx: Context, tx: TypedTx, b: Accounts, existing: Accounts, blockId: nat, strict: bool)
    requires tx.TxNewUser?
    ensures Handle(cx, tx, b, existing, blockId, strict).1.Done? <==>
      && (strict ==> CheckFee(cx, tx).Done?)
      && tx.toWalletId !in b && tx.toWalletId !in existing
      && (tx.fromWalletId == ID_GENESIS || tx.toWalletId >= 0x4000_0000)
      && OpensWith(cx.codec, tx.meta, tx.amount)
      && CanPay(b, tx.fromWalletId, tx.toWalletId, ID_GENESIS, tx.amount, tx.fee)
  {
    hide CheckFee, Transfer, VerifySpendingPower;
    SpendingAllowedIff(b, tx.fromWalletId, ID_GENESIS, tx.amount, tx.fee);
    if cx.codec.userAccountOf(tx.meta).Some? {
      var w := cx.codec.userAccountOf(tx.meta).value.wallet;
      OneBalance(w.balances);
      if ID_GENESIS in w.balances {
        SameModulo(w.balances[ID_GENESIS], tx.amount);
      }
      if tx.toWalletId !in b {
        OpenedPayment(b, tx.fromWalletId, Account.Account(tx.toWalletId, w.(balances := map[]), blockId), tx.amount, tx.fee);
      }
    }
  }

  lemma SameModulo(x: int, amount: u64)
    ensures Wrap(x) == amount <==> (x - amount) % 0x1_0000_0000_0000_0000 == 0
  {
  }

  /** The payment into an account that has just been put there. */
  lemma OpenedPayment(b: Accounts, from: Id, a: Account, amount: u64, fee: u64)
    requires a.id !in b && a.wallet.balances == map[]
    ensures from in b ==>
      (Transfer(b[a.id := a], from, a.id, ID_GENESIS, amount, fee).1.Done? <==> CanPay(b, from, a.id, ID_GENESIS, amount, fee))
  {
    hide Transfer;
    PaymentAcceptedIff(b[a.id := a], from, a.id, ID_GENESIS, amount, fee);
  }

  /** The new account has the payload's keys, the amount and this block's number; the sender has paid amount and fee, the fee account, which
      may be the new one, has the fee, and nothing else has changed. */
  lemma NewUserDoes(cx: Context, tx: TypedTx, b: Accounts, existing: Accounts, blockId: nat, strict: bool)
    requires tx.TxNewUser? && Handle(cx, tx, b, existing, blockId, strict).1.Done?
    ensures cx.codec.userAccountOf(tx.meta).Some?
    ensures var after := Handle(cx, tx, b, existing, blockId, strict).0;
      && after.Keys == b.Keys + {tx.toWalletId} && OnlyBalancesChange(b, after - {tx.toWalletId})
      && after[tx.toWalletId] == Account.Account(tx.toWalletId,
           cx.codec.userAccountOf(tx.meta).value.wallet.(balances := after[tx.toWalletId].wallet.balances), blockId)
      && forall id, t | id in after :: BalanceOf(after, id, t)
           == BalanceOf(b, id, t) + Gain(id, t, tx.fromWalletId, tx.toWalletId, ID_GENESIS, tx.amount, tx.fee)
  {
    hide CheckFee, Transfer, VerifySpendingPower, Gain;
    SpendingAllowedIff(b, tx.fromWalletId, ID_GENESIS, tx.amount, tx.fee);
    var a := Account.Account(tx.toWalletId, cx.codec.userAccountOf(tx.meta).value.wallet.(balances := map[]), blockId);
    PaymentMoves(b[a.id := a], tx.fromWalletId, tx.toWalletId, ID_GENESIS, tx.amount, tx.fee);
    forall id, t
      ensures BalanceOf(b[a.id := a], id, t) == BalanceOf(b, id, t)
    {
    }
  }

  // ----- updates and renewals -----

  /** The account holds what the payload says and the fee. */
  ghost predicate HoldsWithFee(b: Accounts, id: Id, expected: Balances, fee: nat) {
    && fee <= 0x7fff_ffff_ffff_ffff && id in b
    && -0x8000_0000_0000_0000 <= BalanceOf(b, id, ID_GENESIS) <= 0x7fff_ffff_ffff_ffff
    && forall t :: BalanceOf(b, id, t) == TokenBalance(expected, t) + (if t == ID_GENESIS then fee else 0)
  }

  /** Where there is a fee and a fee account, the account can take it, once the payload is in place. */
  predicate FeeFits(b: Accounts, id: Id, expected: Balances, fee: nat) {
    fee > 0 && (ID_FEE in b || id == ID_FEE) ==>
      && fee <= 0x7fff_ffff_ffff_ffff
      && (if id == ID_FEE then TokenBalance(expected, ID_GENESIS) else BalanceOf(b, ID_FEE, ID_GENESIS)) + fee <= 0x7fff_ffff_ffff_ffff
  }

  /** What replacing an account's wallet does: the account is set by this block, the fee account has the fee, nobody else changes. */
  ghost predicate Replaced(b: Accounts, after: Accounts, id: Id, w: Wallet, blockId: nat, fee: nat) {
    && after.Keys == b.Keys + {id} && OnlyBalancesChange(b - {id}, after - {id})
    && after[id] == Account.Account(id, w.(balances := after[id].wallet.balances), blockId)
    && (forall t :: BalanceOf(after, id, t) == TokenBalance(w.balances, t) + (if id == ID_FEE && t == ID_GENESIS then fee else 0))
    && forall other, t | other in b && other != id ::
         BalanceOf(after, other, t) == BalanceOf(b, other, t) + (if other == ID_FEE && t == ID_GENESIS then fee else 0)
  }

  lemma ReplacingIff(b: Accounts, id: Id, w: Wallet, blockId: nat, fee: u64)
    ensures ReplaceAndPay(b, id, w, blockId, fee).1.Done? <==> FeeFits(b, id, w.balances, fee)
    ensures ReplaceAndPay(b, id, w, blockId, fee).1.Done? ==> Replaced(b, ReplaceAndPay(b, id, w, blockId, fee).0, id, w, blockId, fee)
  {
    hide Deposit;
    var replaced := b[id := Account.Account(id, w, blockId)];
    DepositIff(replaced, ID_FEE, ID_GENESIS, ToInt64(fee));
  }

  /** An account is updated or renewed if and only if, on the strict path, the fee is enough and the account known, the payload can be read
      and has a good wallet, a known account holds exactly what the payload says and the fee, and the fee account can take the fee. */
  lemma UpdateIff(cx: Context, id: Id, fee: u64, meta: Bytes, b: Accounts, blockId: nat, strict: bool)
    ensures Upsert(cx, id, fee, meta, b, blockId, strict).1.Done? <==>
      && (strict ==> CheckFee(cx, TxUserUpdate(id, fee, meta, Window(0, 0, 0))).Done? && id in b)
      && cx.codec.userAccountOf(meta).Some?
      && var w := cx.codec.userAccountOf(meta).value.wallet;
         && GoodWallet(w) && (id in b ==> HoldsWithFee(b, id, w.balances, fee)) && FeeFits(b, id, w.balances, fee)
    ensures Upsert(cx, id, fee, meta, b, blockId, strict).1.Done? ==>
      Replaced(b, Upsert(cx, id, fee, meta, b, blockId, strict).0, id, cx.codec.userAccountOf(meta).value.wallet, blockId, fee)
  {
    hide CheckFee, ReplaceAndPay, VerifyBalance, Replaced, FeeFits;
    if cx.codec.userAccountOf(meta).Some? {
      var w := cx.codec.userAccountOf(meta).value.wallet;
      HoldsExactlyIff(b, id, 0, fee, w.balances);
      ReplacingIff(b, id, w, blockId, fee);
    }
  }

  /** The genesis account is renewed under the same conditions, with three keys and two signatures at least; a joiner that does not know it
      goes on without it. */
  lemma GenesisRenewalIff(cx: Context, tx: TypedTx, b: Accounts, blockId: nat, strict: bool)
    requires tx.TxRenewal?
    ensures var r := GenesisRenewal(cx, tx, b, blockId, strict);
      r.1.Done? <==>
        && (strict ==> CheckFee(cx, tx).Done? && ID_GENESIS in b)
        && cx.codec.genesisMetaOf(tx.meta).Some?
        && var w := cx.codec.genesisMetaOf(tx.meta).value.genesis.wallet;
           && |w.publicKeys| >= 3 && w.minSignatures >= 2
           && (ID_GENESIS in b ==> HoldsWithFee(b, ID_GENESIS, w.balances, tx.fee) && FeeFits(b, ID_GENESIS, w.balances, tx.fee))
    ensures var r := GenesisRenewal(cx, tx, b, blockId, strict);
      r.1.Done? ==>
        if ID_GENESIS in b then Replaced(b, r.0, ID_GENESIS, cx.codec.genesisMetaOf(tx.meta).value.genesis.wallet, blockId, tx.fee)
        else r.0 == b
  {
    hide CheckFee, ReplaceAndPay, VerifyBalance, Replaced, FeeFits;
    if cx.codec.genesisMetaOf(tx.meta).Some? {
      var w := cx.codec.genesisMetaOf(tx.meta).value.genesis.wallet;
      HoldsExactlyIff(b, ID_GENESIS, 0, tx.fee, w.balances);
      ReplacingIff(b, ID_GENESIS, w, blockId, tx.fee);
    }
  }

  /** An account is ended if and only if it pays no fee for that, is known with the recycle account, and holds less than its renewal would
      cost. */
  lemma EndingIff(cx: Context, tx: TypedTx, b: Accounts)
    requires tx.TxEndUser?
    ensures EndUser(cx, tx, b).1.Done? <==>
      && tx.fee == 0 && cx.config.Some? && tx.walletId in b && ID_RECYCLE in b
      && var cost := MinFeeForAccount(cx.codec, cx.ledger, cx.config.value, b, tx.walletId);
         cost.Ok? && BalanceOf(b, tx.walletId, ID_GENESIS) < cost.value
    ensures EndUser(cx, tx, b).1.Done? ==> EndUser(cx, tx, b).0 == WriteOff(b, tx.walletId).0
  {
    hide WriteOff, MinFeeForAccount;
    WriteOffIff(b, tx.walletId);
  }

  /** The configuration is updated if and only if the record pays no fee, its payload can be read, has three keys and two signatures for the
      genesis account at least, and says exactly what that account holds; and, on the strict path, the configuration is kept to the same
      genesis time, to slots no longer and epochs no shorter. The genesis account is set to the payload by this block. */
  lemma ConfigIff(cx: Context, tx: TypedTx, b: Accounts, blockId: nat, strict: bool)
    requires tx.TxConfig?
    ensures ConfigUpdate(cx, tx, b, blockId, strict).1.Done? <==>
      && tx.fee == 0 && cx.codec.genesisMetaOf(tx.meta).Some?
      && var gm := cx.codec.genesisMetaOf(tx.meta).value;
         && |gm.genesis.wallet.publicKeys| >= 3 && gm.genesis.wallet.minSignatures >= 2
         && HoldsWithFee(b, ID_GENESIS, gm.genesis.wallet.balances, 0)
         && (strict ==> cx.config.Some? && gm.config.genesisTime == cx.config.value.genesisTime
                        && gm.config.slotDuration <= cx.config.value.slotDuration && gm.config.slotsPerEpoch >= cx.config.value.slotsPerEpoch)
    ensures ConfigUpdate(cx, tx, b, blockId, strict).1.Done? ==>
      Replaced(b, ConfigUpdate(cx, tx, b, blockId, strict).0, ID_GENESIS, cx.codec.genesisMetaOf(tx.meta).value.genesis.wallet, blockId, 0)
  {
    hide VerifyBalance;
    if cx.codec.genesisMetaOf(tx.meta).Some? {
      HoldsExactlyIff(b, ID_GENESIS, 0, 0, cx.codec.genesisMetaOf(tx.meta).value.genesis.wallet.balances);
    }
  }

  /** On the block path an accepted record leaves the configuration as it is, unless it is a configuration record: then its own is in force. */
  lemma ConfigInForce(codec: Codec, l: Ledger, w: World, rec: Record, blockId: nat, slot: nat, leader: Id, strict: bool)
    requires ApplyBlock(codec, l, w, rec, blockId, slot, leader, strict).1.Done? && codec.decode(rec).Some?
    requires !codec.decode(rec).value.TxGenesis?
    ensures var tx := codec.decode(rec).value; var next := ApplyBlock(codec, l, w, rec, blockId, slot, leader, strict).0;
      && next.consensus == w.consensus
      && (!tx.TxConfig? ==> next.config == w.config)
      && (tx.TxConfig? ==> codec.genesisMetaOf(tx.meta).Some? && next.config == Some(codec.genesisMetaOf(tx.meta).value.config))
  {
    hide Idempotency, VerifyBalance;
  }

  /** The genesis record is carried out if and only if it pays no fee, its payload can be read and does not contradict a genesis time known
      already, and there is no genesis account yet; it then brings account, configuration and schedule, and forgets any stakes. */
  lemma FoundingIff(codec: Codec, w: World, tx: TypedTx)
    requires tx.TxGenesis?
    ensures GenesisInit(codec, w, tx).1.Done? <==>
      && tx.fee == 0 && codec.genesisMetaOf(tx.meta).Some? && ID_GENESIS !in w.accounts
      && (w.consensus.schedule.genesisTime == 0 || w.consensus.schedule.genesisTime == codec.genesisMetaOf(tx.meta).value.config.genesisTime)
    ensures GenesisInit(codec, w, tx).1.Done? ==>
      var gm := codec.genesisMetaOf(tx.meta).value; var after := GenesisInit(codec, w, tx).0; var slots := after.consensus.schedule;
      && after.accounts == w.accounts[ID_GENESIS := Account.Account(ID_GENESIS, gm.genesis.wallet, 0)]
      && after.config == Some(gm.config) && after.consensus.stakes == map[] && after.consensus.lastUpdateEpoch == None
      && slots.genesisTime == gm.config.genesisTime && slots.slotDuration == gm.config.slotDuration && slots.slotsPerEpoch == gm.config.slotsPerEpoch
  {
  }
}
