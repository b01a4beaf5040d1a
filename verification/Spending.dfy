/** What one may spend, in terms of what is left: when a payment is allowed and carried out, and exactly what it changes. */
module Spending {
  import opened Numbers
  import opened Outcomes
  import opened ChainTypes
  import opened Bank
  import LateJoiner

  /** How far a balance may go down: to zero, and for the issuer of a token in its own token as far as 64 bits reach. */
  function Floor(a: Account, token: Id): int {
    if a.id == token && token < 0x4000_0000 then -0x8000_0000_0000_0000 else 0
  }

  /** Spending is allowed if and only if both amounts are positive 64-bit numbers, the account is known, and what remains of the token
      and of the native token is not below its floor; the fee on a payment in another token is paid from what is really held. */
  lemma SpendingAllowedIff(b: Accounts, id: Id, token: Id, amount: u64, fee: u64)
    ensures VerifySpendingPower(b, id, token, amount, fee).Done? <==>
      && amount <= 0x7fff_ffff_ffff_ffff && fee <= 0x7fff_ffff_ffff_ffff && id in b
      && if token == ID_GENESIS then BalanceOf(b, id, ID_GENESIS) - amount - fee >= Floor(b[id], ID_GENESIS)
         else BalanceOf(b, id, token) - amount >= Floor(b[id], token) && BalanceOf(b, id, ID_GENESIS) - fee >= 0
    ensures VerifySpendingPower(b, id, token, amount, fee).Failed? ==>
      VerifySpendingPower(b, id, token, amount, fee).error ==
        if amount > 0x7fff_ffff_ffff_ffff || fee > 0x7fff_ffff_ffff_ffff then Input else if id !in b then Error.Account else Balance
  {
  }

  /** Exactly what is held can be spent, down to nothing. */
  lemma AllCanBeSpent(b: Accounts, id: Id, token: Id, fee: u64)
    requires id in b && token != ID_GENESIS && 0 <= BalanceOf(b, id, token) <= INT64_MAX && fee <= INT64_MAX
    requires BalanceOf(b, id, ID_GENESIS) == fee
    ensures VerifySpendingPower(b, id, token, BalanceOf(b, id, token), fee).Done?
    ensures Floor(b[id], token) == 0 && BalanceOf(b, id, token) < INT64_MAX ==>
      VerifySpendingPower(b, id, token, BalanceOf(b, id, token) + 1, fee).Failed?
    ensures fee < INT64_MAX ==> VerifySpendingPower(b, id, token, BalanceOf(b, id, token), fee + 1).Failed?
  {
  }

  // ----- payments -----

  /** What the fee account holds when the amount and the fee have been taken and the fee is about to be credited. */
  function FeeAccountHolds(b: Accounts, from: Id, to: Id, token: Id, amount: nat, fee: nat): int {
    var moved := if token == ID_GENESIS then amount else 0;
    BalanceOf(b, ID_FEE, ID_GENESIS) + (if from == ID_FEE then -moved - fee else if to == ID_FEE then moved else 0)
  }

  /** A payment is carried out if and only if the sender may spend it, the receiver is known and has room for the amount, and, when
      there is a fee, the fee account is known and has room for it. */
  lemma PaymentAcceptedIff(b: Accounts, from: Id, to: Id, token: Id, amount: u64, fee: u64)
    ensures Transfer(b, from, to, token, amount, fee).1.Done? <==>
      && amount <= 0x7fff_ffff_ffff_ffff && fee <= 0x7fff_ffff_ffff_ffff && from in b && to in b
      && (if token == ID_GENESIS then BalanceOf(b, from, ID_GENESIS) - amount - fee >= Floor(b[from], ID_GENESIS)
          else BalanceOf(b, from, token) - amount >= Floor(b[from], token) && BalanceOf(b, from, ID_GENESIS) - fee >= 0)
      && BalanceOf(b, to, token) + amount <= 0x7fff_ffff_ffff_ffff
      && (fee > 0 ==> ID_FEE in b && FeeAccountHolds(b, from, to, token, amount, fee) + fee <= 0x7fff_ffff_ffff_ffff)
  {
    hide VerifySpendingPower;
    SpendingAllowedIff(b, from, token, amount, fee);
  }

  /** What a payment between two accounts adds to a balance. */
  function Gain(id: Id, t: Id, from: Id, to: Id, token: Id, amount: nat, fee: nat): int {
    (if id == to && t == token then amount else 0) - (if id == from && t == token then amount else 0)
    + (if id == ID_FEE && t == ID_GENESIS then fee else 0) - (if id == from && t == ID_GENESIS then fee else 0)
  }

  /** Nothing about the accounts changes but balances. */
  predicate OnlyBalancesChange(b: Accounts, after: Accounts) {
    after.Keys == b.Keys && forall id | id in b :: after[id] == b[id].(wallet := b[id].wallet.(balances := after[id].wallet.balances))
  }

  lemma PaidBalances(a: Account, id: Id, from: Id, to: Id, token: Id, amount: nat, fee: nat)
    requires from != to
    ensures var paid := LateJoiner.Credited(LateJoiner.Paying(a, id, from, to, token, amount, fee), id, fee);
      && paid == a.(wallet := a.wallet.(balances := paid.wallet.balances))
      && forall t :: TokenBalance(paid.wallet.balances, t) == TokenBalance(a.wallet.balances, t) + Gain(id, t, from, to, token, amount, fee)
  {
  }

  /** A payment that is carried out changes balances only. Between two accounts it takes the amount from the sender and gives it to the
      receiver, and takes the fee from the sender and gives it to the fee account. */
  lemma PaymentMoves(b: Accounts, from: Id, to: Id, token: Id, amount: u64, fee: u64)
    requires Transfer(b, from, to, token, amount, fee).1.Done? && from != to
    ensures var after := Transfer(b, from, to, token, amount, fee).0;
      && OnlyBalancesChange(b, after)
      && forall id, t | id in b :: BalanceOf(after, id, t) == BalanceOf(b, id, t) + Gain(id, t, from, to, token, amount, fee)
  {
    hide Transfer, Gain, TokenBalance;
    LateJoiner.TransferPointwise(b, from, to, token, amount, fee);
    forall id | id in b
      ensures var after := Transfer(b, from, to, token, amount, fee).0;
        && after[id] == b[id].(wallet := b[id].wallet.(balances := after[id].wallet.balances))
        && forall t :: BalanceOf(after, id, t) == BalanceOf(b, id, t) + Gain(id, t, from, to, token, amount, fee)
    {
      PaidBalances(b[id], id, from, to, token, amount, fee);
    }
  }

  /** What a payment to oneself adds to a balance: the amount is taken for a gift, or, of native tokens and with a fee, for a loss. */
  function SelfGain(id: Id, t: Id, self: Id, token: Id, amount: int, fee: int): int {
    (if id != self || t != token then 0 else if token == ID_GENESIS && fee > 0 then -amount else amount)
    - (if id == self && t == ID_GENESIS then fee else 0) + (if id == ID_FEE && t == ID_GENESIS then fee else 0)
  }

  lemma SelfPaidBalances(a: Account, id: Id, self: Id, token: Id, amount: nat, fee: nat)
    ensures var paid := LateJoiner.Credited(LateJoiner.Paying(a, id, self, self, token, amount, fee), id, fee);
      && paid == a.(wallet := a.wallet.(balances := paid.wallet.balances))
      && forall t :: TokenBalance(paid.wallet.balances, t) == TokenBalance(a.wallet.balances, t) + SelfGain(id, t, self, token, amount, fee)
  {
  }

  lemma SelfPaymentMoves(b: Accounts, self: Id, token: Id, amount: u64, fee: u64)
    requires Transfer(b, self, self, token, amount, fee).1.Done?
    ensures var after := Transfer(b, self, self, token, amount, fee).0;
      && OnlyBalancesChange(b, after)
      && forall id, t | id in b :: BalanceOf(after, id, t) == BalanceOf(b, id, t) + SelfGain(id, t, self, token, amount, fee)
  {
    hide Transfer, SelfGain, TokenBalance;
    LateJoiner.TransferPointwise(b, self, self, token, amount, fee);
    forall id | id in b
      ensures var after := Transfer(b, self, self, token, amount, fee).0;
        && after[id] == b[id].(wallet := b[id].wallet.(balances := after[id].wallet.balances))
        && forall t :: BalanceOf(after, id, t) == BalanceOf(b, id, t) + SelfGain(id, t, self, token, amount, fee)
    {
      SelfPaidBalances(b[id], id, self, token, amount, fee);
    }
  }

  // ----- what an account must hold -----

  /** An account holds what a payload says, and the amount and fee to be paid, if and only if it does so token by token and the sums stay
      within 64 bits. */
  lemma HoldsExactlyIff(b: Accounts, id: Id, amount: u64, fee: u64, expected: Balances)
    ensures VerifyBalance(b, id, amount, fee, expected).Done? <==>
      && amount + fee <= 0x7fff_ffff_ffff_ffff && id in b
      && -0x8000_0000_0000_0000 <= BalanceOf(b, id, ID_GENESIS) <= 0x7fff_ffff_ffff_ffff
      && forall t :: BalanceOf(b, id, t) == TokenBalance(expected, t) + (if t == ID_GENESIS then amount + fee else 0)
  {
    if VerifyBalance(b, id, amount, fee, expected).Done? {
      forall t
        ensures BalanceOf(b, id, t) == TokenBalance(expected, t) + (if t == ID_GENESIS then amount + fee else 0)
      {
        assert t in b[id].wallet.balances || t in expected || TokenBalance(expected, t) == 0;
      }
    }
  }

  /** A deposit needs a known account with room for it. */
  lemma DepositIff(b: Accounts, id: Id, token: Id, amount: int)
    ensures Deposit(b, id, token, amount).1.Done? <==> amount >= 0 && id in b && BalanceOf(b, id, token) + amount <= 0x7fff_ffff_ffff_ffff
    ensures Deposit(b, id, token, amount).1.Failed? ==> Deposit(b, id, token, amount).0 == b
    ensures Deposit(b, id, token, amount).1.Done? ==>
      var after := Deposit(b, id, token, amount).0;
      && OnlyBalancesChange(b, after)
      && forall other, t | other in b :: BalanceOf(after, other, t) == BalanceOf(b, other, t) + (if other == id && t == token then amount else 0)
  {
  }

  /** A withdrawal needs a known account that it does not take below its floor. */
  lemma WithdrawIff(b: Accounts, id: Id, token: Id, amount: int)
    ensures Withdraw(b, id, token, amount).1.Done? <==>
      amount >= 0 && id in b && BalanceOf(b, id, token) - amount >= Floor(b[id], token)
    ensures Withdraw(b, id, token, amount).1.Failed? ==> Withdraw(b, id, token, amount).0 == b
    ensures Withdraw(b, id, token, amount).1.Done? ==>
      var after := Withdraw(b, id, token, amount).0;
      && OnlyBalancesChange(b, after)
      && forall other, t | other in b :: BalanceOf(after, other, t) == BalanceOf(b, other, t) - (if other == id && t == token then amount else 0)
  {
  }

  /** A written-off account is gone; the recycle account has gained what it held, debts aside, and nobody else has changed. */
  lemma WriteOffIff(b: Accounts, id: Id)
    ensures WriteOff(b, id).1.Done? <==> id in b && ID_RECYCLE in b
    ensures WriteOff(b, id).1.Failed? ==> WriteOff(b, id).0 == b
    ensures WriteOff(b, id).1.Done? ==>
      var after := WriteOff(b, id).0;
      && after.Keys == b.Keys - {id}
      && OnlyBalancesChange(b - {id}, after)
      && forall other, t | other in after :: BalanceOf(after, other, t) ==
           BalanceOf(b, other, t) + (if other == ID_RECYCLE && BalanceOf(b, id, t) > 0 then BalanceOf(b, id, t) else 0)
  {
  }
}
