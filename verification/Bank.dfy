/** What each operation of the account buffer does to the map of accounts, as functions. */
module Bank {
  import opened Numbers
  import opened Outcomes
  import opened ChainTypes

  type Accounts = map<Id, Account>

  function TokenBalance(balances: Balances, token: Id): int {
    if token in balances then balances[token] else 0
  }

  function BalanceOf(b: Accounts, id: Id, token: Id): int {
    if id in b then TokenBalance(b[id].wallet.balances, token) else 0
  }

  function WithBalance(a: Account, token: Id, v: int): Account {
    a.(wallet := a.wallet.(balances := a.wallet.balances[token := v]))
  }

  function SetBalance(b: Accounts, id: Id, token: Id, v: int): Accounts
    requires id in b
  {
    b[id := WithBalance(b[id], token, v)]
  }

  predicate NegativeAllowed(a: Account, token: Id) {
    a.id < ID_FIRST_USER && a.id == token
  }

  function VerifySpendingPower(b: Accounts, id: Id, token: Id, amount: u64, fee: u64): (s: Status)
    ensures s.Done? ==> id in b && amount <= INT64_MAX && fee <= INT64_MAX
  {
    if amount > INT64_MAX || fee > INT64_MAX then Failed(Input)
    else if id !in b then Failed(Error.Account)
    else
      var balance := BalanceOf(b, id, token);
      if token == ID_GENESIS then
        if NegativeAllowed(b[id], token) then
          if amount + fee + INT64_MIN > balance then Failed(Balance) else Done
        else if balance < amount + fee then Failed(Balance)
        else Done
      else if NegativeAllowed(b[id], token) && amount + INT64_MIN > balance then Failed(Balance)
      else if !NegativeAllowed(b[id], token) && balance < amount then Failed(Balance)
      else if BalanceOf(b, id, ID_GENESIS) < fee then Failed(Balance)
      else Done
  }

  /** Custom tokens agree exactly, absent meaning zero. */
  predicate SameCustomTokens(held: Balances, expected: Balances) {
    forall t | t in held.Keys + expected.Keys :: t != ID_GENESIS ==> TokenBalance(held, t) == TokenBalance(expected, t)
  }

  function VerifyBalance(b: Accounts, id: Id, amount: u64, fee: u64, expected: Balances): (s: Status)
    ensures s.Done? ==> id in b && fee <= INT64_MAX
  {
    if amount > INT64_MAX || fee > INT64_MAX then Failed(Input)
    else if id !in b then Failed(Error.Account)
    else if !SameCustomTokens(b[id].wallet.balances, expected) then Failed(Balance)
    else if !InInt64(amount + fee) then Failed(Balance)
    else if !InInt64(TokenBalance(expected, ID_GENESIS) + amount + fee) then Failed(Balance)
    else if BalanceOf(b, id, ID_GENESIS) != TokenBalance(expected, ID_GENESIS) + amount + fee then Failed(Balance)
    else Done
  }

  function Add(b: Accounts, a: Account): (Accounts, Status) {
    if a.id in b then (b, Failed(Error.Account)) else (b[a.id := a], Done)
  }

  function SeedFromCommitted(b: Accounts, committed: Accounts, id: Id): (Accounts, Status) {
    if id in b then (b, Done)
    else if id !in committed then (b, Failed(Error.Account))
    else Add(b, committed[id])
  }

  function Deposit(b: Accounts, id: Id, token: Id, amount: int): (Accounts, Status) {
    if amount < 0 then (b, Failed(Input))
    else if id !in b then (b, Failed(Error.Account))
    else if BalanceOf(b, id, token) > INT64_MAX - amount then (b, Failed(Balance))
    else (SetBalance(b, id, token, BalanceOf(b, id, token) + amount), Done)
  }

  function Withdraw(b: Accounts, id: Id, token: Id, amount: int): (Accounts, Status) {
    if amount < 0 then (b, Failed(Input))
    else if id !in b then (b, Failed(Error.Account))
    else if !NegativeAllowed(b[id], token) && BalanceOf(b, id, token) < amount then (b, Failed(Balance))
    else if BalanceOf(b, id, token) < INT64_MIN + amount then (b, Failed(Balance))
    else (SetBalance(b, id, token, BalanceOf(b, id, token) - amount), Done)
  }

  /** The accounts after the amount has moved: the sender is written first, then the receiver,
      from balances that were both read before. */
  function MoveAmount(b: Accounts, from: Id, to: Id, token: Id, amount: int): Accounts
    requires from in b && to in b
  {
    SetBalance(SetBalance(b, from, token, BalanceOf(b, from, token) - amount), to, token, BalanceOf(b, to, token) + amount)
  }

  /** The accounts after the sender has paid the fee. */
  function ChargeFee(b: Accounts, from: Id, to: Id, token: Id, amount: int, fee: int): Accounts
    requires from in b && to in b
  {
    var left := BalanceOf(b, from, ID_GENESIS) - (if token == ID_GENESIS then amount else 0) - fee;
    SetBalance(MoveAmount(b, from, to, token, amount), from, ID_GENESIS, left)
  }

  /** A transfer. The last two failures come after the balances have been written. */
  function Transfer(b: Accounts, from: Id, to: Id, token: Id, amount: u64, fee: u64): (Accounts, Status) {
    var power := VerifySpendingPower(b, from, token, amount, fee);
    if power.Failed? then (b, power)
    else if to !in b then (b, Failed(Error.Account))
    else if BalanceOf(b, to, token) > INT64_MAX - amount then (b, Failed(Input))
    else if fee == 0 then (MoveAmount(b, from, to, token, amount), Done)
    else
      var charged := ChargeFee(b, from, to, token, amount, fee);
      if ID_FEE !in charged then (charged, Failed(Error.Account))
      else if BalanceOf(charged, ID_FEE, ID_GENESIS) > INT64_MAX - fee then (charged, Failed(Input))
      else (SetBalance(charged, ID_FEE, ID_GENESIS, BalanceOf(charged, ID_FEE, ID_GENESIS) + fee), Done)
  }

  /** The recycle wallet after it has absorbed every positive balance of another wallet. */
  function Absorb(recycle: Balances, from: Balances): Balances {
    map t | t in recycle.Keys + (set u | u in from && from[u] > 0) ::
      TokenBalance(recycle, t) + (if t in from && from[t] > 0 then from[t] else 0)
  }

  function WriteOff(b: Accounts, id: Id): (Accounts, Status) {
    if id !in b then (b, Failed(Error.Account))
    else if ID_RECYCLE !in b then (b, Failed(Error.Account))
    else
      var recycle := b[ID_RECYCLE];
      var absorbed := Absorb(recycle.wallet.balances, b[id].wallet.balances);
      (b[ID_RECYCLE := recycle.(wallet := recycle.wallet.(balances := absorbed))] - {id}, Done)
  }
}
