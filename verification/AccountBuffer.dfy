/** The account buffer: a mutable map of accounts. Each method is proved against its function in `Bank`. */
module AccountBuffers {
  import opened Numbers
  import opened Outcomes
  import opened ChainTypes
  import opened Bank

  class AccountBuffer {
    var accounts: Accounts

    constructor ()
      ensures accounts == map[]
    {
      accounts := map[];
    }

    method HasAccount(id: Id) returns (has: bool)
      ensures has == (id in accounts)
    {
      has := id in accounts;
    }

    method GetBalance(id: Id, token: Id) returns (balance: int)
      ensures balance == BalanceOf(accounts, id, token)
    {
      if id !in accounts {
        return 0;
      }
      var balances := accounts[id].wallet.balances;
      if token !in balances {
        return 0;
      }
      return balances[token];
    }

    method AddAccount(a: Account) returns (s: Status)
      modifies this
      ensures (accounts, s) == Add(old(accounts), a)
    {
      if a.id in accounts {
        return Failed(Error.Account);
      }
      accounts := accounts[a.id := a];
      return Done;
    }

    method SeedFromCommittedIfMissing(committed: AccountBuffer, id: Id) returns (s: Status)
      modifies this
      ensures (accounts, s) == SeedFromCommitted(old(accounts), old(committed.accounts), id)
    {
      if id in accounts {
        return Done;
      }
      if id !in committed.accounts {
        return Failed(Error.Account);
      }
      s := AddAccount(committed.accounts[id]);
    }

    method CheckSpendingPower(id: Id, token: Id, amount: u64, fee: u64) returns (s: Status)
      ensures s == VerifySpendingPower(accounts, id, token, amount, fee)
    {
      if amount > INT64_MAX || fee > INT64_MAX {
        return Failed(Input);
      }
      if id !in accounts {
        return Failed(Error.Account);
      }
      var tokenBalance := GetBalance(id, token);
      var feeBalance := tokenBalance;
      if token != ID_GENESIS {
        feeBalance := GetBalance(id, ID_GENESIS);
      }
      var allowNegative := NegativeAllowed(accounts[id], token);
      if token == ID_GENESIS {
        if allowNegative {
          if amount + fee + INT64_MIN > tokenBalance {
            return Failed(Balance);
          }
          return Done;
        }
        if tokenBalance < amount + fee {
          return Failed(Balance);
        }
      } else {
        if allowNegative {
          if amount + INT64_MIN > tokenBalance {
            return Failed(Balance);
          }
        } else if tokenBalance < amount {
          return Failed(Balance);
        }
        if feeBalance < fee {
          return Failed(Balance);
        }
      }
      return Done;
    }

    /** One of the two loops that compare custom tokens: every key of `left` except the native token. */
    static method AgreeOnKeys(left: Balances, right: Balances) returns (agree: bool)
      ensures agree <==> forall t | t in left :: t != ID_GENESIS ==> TokenBalance(left, t) == TokenBalance(right, t)
    {
      var rest := left.Keys;
      while rest != {}
        invariant rest <= left.Keys
        invariant forall t | t in left.Keys - rest :: t != ID_GENESIS ==> TokenBalance(left, t) == TokenBalance(right, t)
        decreases rest
      {
        var token :| token in rest;
        if token != ID_GENESIS && left[token] != TokenBalance(right, token) {
          return false;
        }
        rest := rest - {token};
      }
      return true;
    }

    method CheckBalance(id: Id, amount: u64, fee: u64, expected: Balances) returns (s: Status)
      ensures s == VerifyBalance(accounts, id, amount, fee, expected)
    {
      if amount > INT64_MAX || fee > INT64_MAX {
        return Failed(Input);
      }
      if id !in accounts {
        return Failed(Error.Account);
      }
      var held := accounts[id].wallet.balances;
      var heldAgrees := AgreeOnKeys(held, expected);
      if !heldAgrees {
        return Failed(Balance);
      }
      var expectedAgrees := AgreeOnKeys(expected, held);
      if !expectedAgrees {
        return Failed(Balance);
      }
      var delta := amount + fee;
      if !InInt64(delta) {
        return Failed(Balance);
      }
      var expectedGenesis := TokenBalance(expected, ID_GENESIS);
      if !InInt64(expectedGenesis + delta) {
        return Failed(Balance);
      }
      if TokenBalance(held, ID_GENESIS) != expectedGenesis + delta {
        return Failed(Balance);
      }
      return Done;
    }

    method SetTokenBalance(id: Id, token: Id, v: int)
      requires id in accounts
      modifies this
      ensures accounts == SetBalance(old(accounts), id, token, v)
    {
      accounts := accounts[id := WithBalance(accounts[id], token, v)];
    }

    method DepositBalance(id: Id, token: Id, amount: int) returns (s: Status)
      modifies this
      ensures (accounts, s) == Deposit(old(accounts), id, token, amount)
    {
      if amount < 0 {
        return Failed(Input);
      }
      if id !in accounts {
        return Failed(Error.Account);
      }
      var current := GetBalance(id, token);
      if current > INT64_MAX - amount {
        return Failed(Balance);
      }
      SetTokenBalance(id, token, current + amount);
      return Done;
    }

    method WithdrawBalance(id: Id, token: Id, amount: int) returns (s: Status)
      modifies this
      ensures (accounts, s) == Withdraw(old(accounts), id, token, amount)
    {
      if amount < 0 {
        return Failed(Input);
      }
      if id !in accounts {
        return Failed(Error.Account);
      }
      var current := GetBalance(id, token);
      if !NegativeAllowed(accounts[id], token) && current < amount {
        return Failed(Balance);
      }
      if current < INT64_MIN + amount {
        return Failed(Balance);
      }
      SetTokenBalance(id, token, current - amount);
      return Done;
    }

    method TransferBalance(from: Id, to: Id, token: Id, amount: u64, fee: u64) returns (s: Status)
      modifies this
      ensures (accounts, s) == Transfer(old(accounts), from, to, token, amount, fee)
    {
      hide VerifySpendingPower, BalanceOf, WithBalance;
      s := CheckSpendingPower(from, token, amount, fee);
      if s.Failed? {
        return;
      }
      if to !in accounts {
        return Failed(Error.Account);
      }
      var fromBalance := GetBalance(from, token);
      var toBalance := GetBalance(to, token);
      if toBalance > INT64_MAX - amount {
        return Failed(Input);
      }
      var genesisBalance := 0;
      if fee > 0 && token != ID_GENESIS {
        genesisBalance := GetBalance(from, ID_GENESIS);
      }
      SetTokenBalance(from, token, fromBalance - amount);
      SetTokenBalance(to, token, toBalance + amount);
      if fee > 0 {
        if token == ID_GENESIS {
          SetTokenBalance(from, ID_GENESIS, fromBalance - amount - fee);
        } else {
          SetTokenBalance(from, ID_GENESIS, genesisBalance - fee);
        }
        if ID_FEE !in accounts {
          return Failed(Error.Account);
        }
        var feeBalance := GetBalance(ID_FEE, ID_GENESIS);
        if feeBalance > INT64_MAX - fee {
          return Failed(Input);
        }
        SetTokenBalance(ID_FEE, ID_GENESIS, feeBalance + fee);
      }
      return Done;
    }

    method WriteOffAccount(id: Id) returns (s: Status)
      modifies this
      ensures (accounts, s) == WriteOff(old(accounts), id)
    {
      if id !in accounts || ID_RECYCLE !in accounts {
        return Failed(Error.Account);
      }
      ghost var start := accounts[ID_RECYCLE].wallet.balances;
      var balances := accounts[id].wallet.balances;
      var recycle := accounts[ID_RECYCLE].wallet.balances;
      var rest := balances.Keys;
      while rest != {}
        invariant rest <= balances.Keys
        invariant recycle.Keys == start.Keys + (set u | u in balances.Keys - rest && balances[u] > 0)
        invariant forall t | t in recycle ::
          recycle[t] == TokenBalance(start, t) + (if t in balances.Keys - rest && balances[t] > 0 then balances[t] else 0)
        decreases rest
      {
        var token :| token in rest;
        if balances[token] > 0 {
          recycle := recycle[token := TokenBalance(recycle, token) + balances[token]];
        }
        rest := rest - {token};
      }
      assert recycle == Absorb(start, balances);
      accounts := accounts[ID_RECYCLE := accounts[ID_RECYCLE].(wallet := accounts[ID_RECYCLE].wallet.(balances := recycle))];
      accounts := accounts - {id};
      return Done;
    }

    /** No effect when the account does not exist. */
    method Remove(id: Id)
      modifies this
      ensures accounts == old(accounts) - {id}
    {
      accounts := accounts - {id};
    }

    method Clear()
      modifies this
      ensures accounts == map[]
    {
      accounts := map[];
    }
  }
}
