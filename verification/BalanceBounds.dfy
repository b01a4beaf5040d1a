/** Every balance stays within 64 bits, and only an issuer is ever in debt, in its own token. */
module BalanceBounds {
  import opened Numbers
  import opened Outcomes
  import opened ChainTypes
  import opened Bank
  import opened BankTotals
  import opened LedgerView
  import opened TxHandlers
  import opened Conservation

  /** What an account may hold of a token: it fits in 64 bits and is negative only for the token's issuer. */
  predicate Allowed(id: Id, token: Id, v: int) {
    InInt64(v) && (v >= 0 || (id < ID_FIRST_USER && id == token))
  }

  ghost predicate BoundedWallet(id: Id, balances: Balances) {
    forall t | t in balances :: Allowed(id, t, balances[t])
  }

  ghost predicate Bounded(b: Accounts) {
    forall id | id in b :: b[id].id == id && BoundedWallet(id, b[id].wallet.balances)
  }

  /** Decoded wallets hold 64-bit balances: the source decodes them into `int64_t`. */
  ghost predicate DecodesInt64(codec: Codec) {
    && (forall m, t | codec.userAccountOf(m).Some? && t in codec.userAccountOf(m).value.wallet.balances ::
          InInt64(codec.userAccountOf(m).value.wallet.balances[t]))
    && (forall m, t | codec.genesisMetaOf(m).Some? && t in codec.genesisMetaOf(m).value.genesis.wallet.balances ::
          InInt64(codec.genesisMetaOf(m).value.genesis.wallet.balances[t]))
  }

  lemma BoundedAt(b: Accounts, id: Id, t: Id)
    requires Bounded(b)
    ensures Allowed(id, t, BalanceOf(b, id, t))
  {
  }

  lemma SetKeepsBounds(b: Accounts, id: Id, token: Id, v: int)
    requires Bounded(b) && id in b && Allowed(id, token, v)
    ensures Bounded(SetBalance(b, id, token, v))
  {
  }

  /** What the spending checks give: every balance a transfer writes is allowed. */
  lemma PaymentAllowed(b: Accounts, from: Id, to: Id, token: Id, amount: u64, fee: u64)
    requires Bounded(b) && VerifySpendingPower(b, from, token, amount, fee).Done?
    requires to in b && BalanceOf(b, to, token) <= INT64_MAX - amount
    ensures Allowed(from, token, BalanceOf(b, from, token) - amount)
    ensures Allowed(to, token, BalanceOf(b, to, token) + amount)
    ensures Allowed(from, ID_GENESIS, BalanceOf(b, from, ID_GENESIS) - (if token == ID_GENESIS then amount else 0) - fee)
  {
    BoundedAt(b, from, token);
    BoundedAt(b, to, token);
    BoundedAt(b, from, ID_GENESIS);
  }

  lemma MoveKeepsBounds(b: Accounts, from: Id, to: Id, token: Id, amount: int)
    requires Bounded(b) && from in b && to in b
    requires Allowed(from, token, BalanceOf(b, from, token) - amount)
    requires Allowed(to, token, BalanceOf(b, to, token) + amount)
    ensures Bounded(MoveAmount(b, from, to, token, amount))
  {
    hide BoundedWallet;
    hide TokenBalance;
    SetKeepsBounds(b, from, token, BalanceOf(b, from, token) - amount);
    SetKeepsBounds(SetBalance(b, from, token, BalanceOf(b, from, token) - amount), to, token, BalanceOf(b, to, token) + amount);
  }

  lemma CreditKeepsBounds(b: Accounts, id: Id, token: Id, amount: u64)
    requires Bounded(b) && id in b && BalanceOf(b, id, token) <= INT64_MAX - amount
    ensures Bounded(SetBalance(b, id, token, BalanceOf(b, id, token) + amount))
  {
    BoundedAt(b, id, token);
    SetKeepsBounds(b, id, token, BalanceOf(b, id, token) + amount);
  }

  lemma TransferKeepsBounds(b: Accounts, from: Id, to: Id, token: Id, amount: u64, fee: u64)
    requires Bounded(b) && Transfer(b, from, to, token, amount, fee).1.Done?
    ensures Bounded(Transfer(b, from, to, token, amount, fee).0)
  {
    PaymentAllowed(b, from, to, token, amount, fee);
    MoveKeepsBounds(b, from, to, token, amount);
    if fee > 0 {
      var moved := MoveAmount(b, from, to, token, amount);
      var charged := ChargeFee(b, from, to, token, amount, fee);
      var left := BalanceOf(b, from, ID_GENESIS) - (if token == ID_GENESIS then amount else 0) - fee;
      assert Bounded(charged) by {
        SetKeepsBounds(moved, from, ID_GENESIS, left);
      }
      CreditKeepsBounds(charged, ID_FEE, ID_GENESIS, fee);
    }
  }

  /** The transfer's own intermediate `int64_t` expressions never overflow, given that amount plus fee does not. */
  lemma TransferArithmeticFits(b: Accounts, from: Id, to: Id, token: Id, amount: u64, fee: u64)
    requires Bounded(b) && amount + fee <= INT64_MAX
    ensures InInt64(amount + fee + INT64_MIN) && InInt64(INT64_MAX - amount) && InInt64(INT64_MAX - fee)
    ensures Transfer(b, from, to, token, amount, fee).1.Done? ==>
      && InInt64(BalanceOf(b, from, token) - amount) && InInt64(BalanceOf(b, to, token) + amount)
      && (token == ID_GENESIS ==> InInt64(BalanceOf(b, from, token) - amount - fee))
      && (fee > 0 ==> InInt64(BalanceOf(b, from, ID_GENESIS) - fee))
  {
    BoundedAt(b, from, token);
    BoundedAt(b, to, token);
    BoundedAt(b, from, ID_GENESIS);
  }

  lemma DepositKeepsBounds(b: Accounts, id: Id, token: Id, amount: int)
    requires Bounded(b) && Deposit(b, id, token, amount).1.Done?
    ensures Bounded(Deposit(b, id, token, amount).0)
  {
    BoundedAt(b, id, token);
    SetKeepsBounds(b, id, token, BalanceOf(b, id, token) + amount);
  }

  /** A replaced wallet is within bounds exactly when the account could pay the fee, or is the genesis account. */
  lemma ReplaceBoundedIff(b: Accounts, id: Id, wallet: Wallet, fee: u64)
    requires Bounded(b) && id in b && VerifyBalance(b, id, 0, fee, wallet.balances).Done?
    requires forall t | t in wallet.balances :: InInt64(wallet.balances[t])
    ensures BoundedWallet(id, wallet.balances) <==>
      id == ID_GENESIS || fee <= BalanceOf(b, id, ID_GENESIS) || ID_GENESIS !in wallet.balances
  {
    forall t | t in wallet.balances && t != ID_GENESIS
      ensures Allowed(id, t, wallet.balances[t])
    {
      BoundedAt(b, id, t);
      assert TokenBalance(b[id].wallet.balances, t) == TokenBalance(wallet.balances, t);
    }
  }

  lemma ReplaceKeepsBounds(b: Accounts, id: Id, wallet: Wallet, blockId: nat, fee: u64)
    requires Bounded(b) && id in b && VerifyBalance(b, id, 0, fee, wallet.balances).Done?
    requires forall t | t in wallet.balances :: InInt64(wallet.balances[t])
    requires id == ID_GENESIS || fee <= BalanceOf(b, id, ID_GENESIS)
    requires ReplaceAndPay(b, id, wallet, blockId, fee).1.Done?
    ensures Bounded(ReplaceAndPay(b, id, wallet, blockId, fee).0)
  {
    ReplaceBoundedIff(b, id, wallet, fee);
    var a := Account.Account(id, wallet, blockId);
    if fee > 0 && ID_FEE in b {
      DepositKeepsBounds(b[id := a], ID_FEE, ID_GENESIS, ToInt64(fee));
    }
  }

  // ----- write-off -----

  ghost predicate NonNegative(b: Accounts, t: Id) {
    forall id | id in b :: TokenBalance(b[id].wallet.balances, t) >= 0
  }

  lemma {:induction false} TotalNonNegative(b: Accounts, t: Id)
    requires NonNegative(b, t)
    ensures Total(b, t) >= 0
    decreases |b|
  {
    if b != map[] {
      var id :| id in b;
      TotalRemove(b, id, t);
      TotalNonNegative(b - {id}, t);
    }
  }

  /** When a token nets to zero, no two accounts other than the issuer hold more of it than the issuer owes. */
  lemma PairWithinDebt(b: Accounts, x: Id, y: Id, t: Id)
    requires Bounded(b) && Total(b, t) == 0
    requires x in b && y in b && x != y
    ensures (if x == t then 0 else BalanceOf(b, x, t)) + (if y == t then 0 else BalanceOf(b, y, t)) <= -BalanceOf(b, t, t)
    ensures BalanceOf(b, t, t) <= 0
  {
    var rest := b - {t};
    forall id | id in rest
      ensures TokenBalance(rest[id].wallet.balances, t) >= 0
    {
      BoundedAt(b, id, t);
    }
    TotalNonNegative(rest, t);
    if t in b {
      TotalRemove(b, t, t);
    } else {
      assert rest == b;
    }
    if x in rest {
      TotalRemove(rest, x, t);
      TotalNonNegative(rest - {x}, t);
    }
    if y in rest {
      TotalRemove(rest, y, t);
      TotalNonNegative(rest - {y}, t);
      if x in rest {
        TotalRemove(rest - {y}, x, t);
        TotalNonNegative(rest - {y} - {x}, t);
      }
    }
  }

  /** The unchecked addition of a write-off stays within 64 bits when tokens net to zero and no issuer's debt is
      at the very bottom of the range. */
  lemma WriteOffKeepsBounds(b: Accounts, id: Id)
    requires Bounded(b) && id != ID_RECYCLE && WriteOff(b, id).1.Done?
    requires forall t | t in b[id].wallet.balances :: Total(b, t) == 0 && BalanceOf(b, t, t) > INT64_MIN
    ensures Bounded(WriteOff(b, id).0)
  {
    var recycle := b[ID_RECYCLE].wallet.balances;
    var from := b[id].wallet.balances;
    var absorbed := Absorb(recycle, from);
    forall t | t in absorbed
      ensures Allowed(ID_RECYCLE, t, absorbed[t])
    {
      BoundedAt(b, ID_RECYCLE, t);
      BoundedAt(b, id, t);
      if t in from && from[t] > 0 {
        PairWithinDebt(b, id, ID_RECYCLE, t);
        assert BalanceOf(b, id, t) == from[t] && BalanceOf(b, ID_RECYCLE, t) == TokenBalance(recycle, t);
      }
    }
  }
}
