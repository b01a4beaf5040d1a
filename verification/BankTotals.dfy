/** The sum of a token over all accounts, and how the elementary changes of the bank move it. */
module BankTotals {
  import opened Numbers
  import opened Outcomes
  import opened ChainTypes
  import opened Bank

  ghost function Total(b: Accounts, token: Id): int {
    if b == map[] then 0
    else
      var id :| id in b;
      TokenBalance(b[id].wallet.balances, token) + Total(b - {id}, token)
  }

  lemma {:induction false} TotalRemove(b: Accounts, id: Id, token: Id)
    requires id in b
    ensures Total(b, token) == TokenBalance(b[id].wallet.balances, token) + Total(b - {id}, token)
    decreases |b|
  {
    var picked :| picked in b &&
      Total(b, token) == TokenBalance(b[picked].wallet.balances, token) + Total(b - {picked}, token);
    if picked != id {
      TotalRemove(b - {picked}, id, token);
      TotalRemove(b - {id}, picked, token);
      assert b - {picked} - {id} == b - {id} - {picked};
    }
  }

  lemma TotalPut(b: Accounts, a: Account, id: Id, token: Id)
    ensures Total(b[id := a], token)
         == Total(b, token) - BalanceOf(b, id, token) + TokenBalance(a.wallet.balances, token)
  {
    var put := b[id := a];
    TotalRemove(put, id, token);
    assert put - {id} == b - {id};
    if id in b {
      TotalRemove(b, id, token);
    } else {
      assert b - {id} == b;
    }
  }

  lemma TotalSetBalance(b: Accounts, id: Id, token: Id, v: int, t: Id)
    requires id in b
    ensures Total(SetBalance(b, id, token, v), t)
         == Total(b, t) + (if t == token then v - BalanceOf(b, id, token) else 0)
  {
    TotalPut(b, WithBalance(b[id], token, v), id, t);
  }

  lemma TotalMove(b: Accounts, from: Id, to: Id, token: Id, amount: int, t: Id)
    requires from in b && to in b
    ensures Total(MoveAmount(b, from, to, token, amount), t)
         == Total(b, t) + (if t == token && from == to then amount else 0)
  {
    var debited := SetBalance(b, from, token, BalanceOf(b, from, token) - amount);
    TotalSetBalance(b, from, token, BalanceOf(b, from, token) - amount, t);
    TotalSetBalance(debited, to, token, BalanceOf(b, to, token) + amount, t);
  }

  /** What a transfer of a wallet to itself does to the token's total. */
  function SelfTransferDrift(from: Id, to: Id, token: Id, amount: u64, fee: u64, t: Id): int {
    if t != token || from != to then 0
    else if fee > 0 && token == ID_GENESIS then -(amount as int)
    else amount
  }

  lemma MovedBalance(b: Accounts, from: Id, to: Id, token: Id, amount: int, t: Id)
    requires from in b && to in b
    ensures MoveAmount(b, from, to, token, amount).Keys == b.Keys
    ensures BalanceOf(MoveAmount(b, from, to, token, amount), from, t)
         == BalanceOf(b, from, t) + (if t != token then 0 else if from == to then amount else -amount)
  {
  }

  lemma ChargeTotal(b: Accounts, from: Id, to: Id, token: Id, amount: u64, fee: u64, t: Id)
    requires from in b && to in b && fee > 0
    ensures Total(ChargeFee(b, from, to, token, amount, fee), t)
         == Total(b, t) + SelfTransferDrift(from, to, token, amount, fee, t) - (if t == ID_GENESIS then fee as int else 0)
  {
    hide MoveAmount;
    hide SetBalance;
    hide BalanceOf;
    TotalMove(b, from, to, token, amount, t);
    MovedBalance(b, from, to, token, amount, ID_GENESIS);
    var left := BalanceOf(b, from, ID_GENESIS) - (if token == ID_GENESIS then amount else 0) - fee;
    TotalSetBalance(MoveAmount(b, from, to, token, amount), from, ID_GENESIS, left, t);
  }

  /** A successful transfer keeps every token's total exactly when it moves nothing or moves it between
      two different wallets: a transfer of a wallet to itself creates or destroys the amount. */
  lemma TransferTotal(b: Accounts, from: Id, to: Id, token: Id, amount: u64, fee: u64, t: Id)
    requires Transfer(b, from, to, token, amount, fee).1.Done?
    ensures Total(Transfer(b, from, to, token, amount, fee).0, t)
         == Total(b, t) + SelfTransferDrift(from, to, token, amount, fee, t)
  {
    hide VerifySpendingPower;
    hide MoveAmount;
    hide ChargeFee;
    hide SetBalance;
    TotalMove(b, from, to, token, amount, t);
    if fee > 0 {
      ChargeTotal(b, from, to, token, amount, fee, t);
      var charged := ChargeFee(b, from, to, token, amount, fee);
      TotalSetBalance(charged, ID_FEE, ID_GENESIS, BalanceOf(charged, ID_FEE, ID_GENESIS) + fee, t);
    }
  }

  lemma DepositTotal(b: Accounts, id: Id, token: Id, amount: int, t: Id)
    requires Deposit(b, id, token, amount).1.Done?
    ensures Total(Deposit(b, id, token, amount).0, t) == Total(b, t) + (if t == token then amount else 0)
  {
    TotalSetBalance(b, id, token, BalanceOf(b, id, token) + amount, t);
  }

  /** What a write-off takes out of circulation: a negative balance, or the whole of the recycle account's own. */
  function WriteOffLoss(b: Accounts, id: Id, t: Id): int {
    var balance := BalanceOf(b, id, t);
    if id == ID_RECYCLE || balance < 0 then balance else 0
  }

  lemma WriteOffTotal(b: Accounts, id: Id, t: Id)
    requires WriteOff(b, id).1.Done?
    ensures Total(WriteOff(b, id).0, t) == Total(b, t) - WriteOffLoss(b, id, t)
  {
    var recycle := b[ID_RECYCLE];
    var absorbed := Absorb(recycle.wallet.balances, b[id].wallet.balances);
    var a := recycle.(wallet := recycle.wallet.(balances := absorbed));
    var put := b[ID_RECYCLE := a];
    TotalPut(b, a, ID_RECYCLE, t);
    TotalRemove(put, id, t);
  }
}
