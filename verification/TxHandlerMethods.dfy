/** The transaction handlers as they run: step by step on an account buffer, each proved against its function. */
module TxHandlerMethods {
  import opened Numbers
  import opened Outcomes
  import opened ChainTypes
  import opened Bank
  import opened AccountBuffers
  import opened TxFees
  import opened TxHandlers
  import opened TxIdempotency

  method CheckMinimumFee(cx: Context, tx: TypedTx) returns (s: Status)
    ensures s == CheckFee(cx, tx)
  {
    if cx.config.None? {
      return Failed(Internal);
    }
    var minimum := MinFeeForTx(cx.codec, cx.config.value, tx);
    if minimum.Err? {
      return Failed(minimum.error);
    }
    if tx.fee < minimum.value {
      return Failed(TxFee);
    }
    return Done;
  }

  // ----- default transfers -----

  method ApplyDefaultTransferStrict(cx: Context, tx: TypedTx, bank: AccountBuffer) returns (s: Status)
    requires tx.TxDefault?
    modifies bank
    ensures (bank.accounts, s) == TransferStrict(cx, tx, old(bank.accounts))
  {
    s := CheckMinimumFee(cx, tx);
    if s.Failed? {
      return;
    }
    s := bank.TransferBalance(tx.fromWalletId, tx.toWalletId, tx.tokenId, tx.amount, tx.fee);
    if s.Failed? {
      return Failed(TxTransfer);
    }
  }

  method ApplyDefaultTransferLoose(tx: TypedTx, bank: AccountBuffer) returns (s: Status)
    requires tx.TxDefault?
    modifies bank
    ensures (bank.accounts, s) == TransferLoose(tx, old(bank.accounts))
  {
    var hasFrom := bank.HasAccount(tx.fromWalletId);
    var hasTo := bank.HasAccount(tx.toWalletId);
    if hasFrom {
      if hasTo {
        s := bank.TransferBalance(tx.fromWalletId, tx.toWalletId, tx.tokenId, tx.amount, tx.fee);
        if s.Failed? {
          return Failed(TxTransfer);
        }
      } else {
        if tx.tokenId == ID_GENESIS {
          s := bank.WithdrawBalance(tx.fromWalletId, tx.tokenId, ToInt64(tx.amount) + ToInt64(tx.fee));
          if s.Failed? {
            return Failed(TxTransfer);
          }
        } else {
          s := bank.WithdrawBalance(tx.fromWalletId, tx.tokenId, ToInt64(tx.amount));
          if s.Failed? {
            return Failed(TxTransfer);
          }
          if tx.fee > 0 {
            s := bank.WithdrawBalance(tx.fromWalletId, ID_GENESIS, ToInt64(tx.fee));
            if s.Failed? {
              return Failed(TxTransfer);
            }
          }
        }
        var hasFee := bank.HasAccount(ID_FEE);
        if tx.fee > 0 && hasFee {
          s := bank.DepositBalance(ID_FEE, ID_GENESIS, ToInt64(tx.fee));
          if s.Failed? {
            return Failed(TxTransfer);
          }
        }
      }
    } else if hasTo {
      s := bank.DepositBalance(tx.toWalletId, tx.tokenId, ToInt64(tx.amount));
      if s.Failed? {
        return Failed(TxTransfer);
      }
    }
    return Done;
  }

  // ----- new accounts -----

  method ApplyNewUser(cx: Context, tx: TypedTx, bank: AccountBuffer, existing: Accounts, blockId: nat, strict: bool)
    returns (s: Status)
    requires tx.TxNewUser?
    modifies bank
    ensures (bank.accounts, s) == NewUser(cx, tx, old(bank.accounts), existing, blockId, strict)
  {
    if strict {
      s := CheckMinimumFee(cx, tx);
      if s.Failed? {
        return;
      }
    }
    var inBank := bank.HasAccount(tx.toWalletId);
    if inBank || tx.toWalletId in existing {
      return Failed(AccountExists);
    }
    s := bank.CheckSpendingPower(tx.fromWalletId, ID_GENESIS, tx.amount, tx.fee);
    if s.Failed? {
      return Failed(AccountBalance);
    }
    if tx.fromWalletId != ID_GENESIS && tx.toWalletId < ID_FIRST_USER {
      return Failed(TxValidation);
    }
    var decoded := cx.codec.userAccountOf(tx.meta);
    if decoded.None? {
      return Failed(Deserialize);
    }
    var wallet := decoded.value.wallet;
    s := CheckWallet(wallet);
    if s.Failed? {
      return;
    }
    if |wallet.balances| != 1 || ID_GENESIS !in wallet.balances {
      return Failed(TxValidation);
    }
    if Wrap(wallet.balances[ID_GENESIS]) != tx.amount {
      return Failed(TxValidation);
    }
    s := bank.AddAccount(Account.Account(tx.toWalletId, wallet.(balances := map[]), blockId));
    s := bank.TransferBalance(tx.fromWalletId, tx.toWalletId, ID_GENESIS, tx.amount, tx.fee);
    if s.Failed? {
      return Failed(TxTransfer);
    }
  }

  // ----- account updates and renewals -----

  /** Remove, re-add and credit: the three steps shared by user updates and renewals. */
  method ReplaceAccount(bank: AccountBuffer, id: Id, wallet: Wallet, blockId: nat, fee: u64) returns (s: Status)
    modifies bank
    ensures (bank.accounts, s) == ReplaceAndPay(old(bank.accounts), id, wallet, blockId, fee)
  {
    ghost var before := bank.accounts;
    bank.Remove(id);
    s := bank.AddAccount(Account.Account(id, wallet, blockId));
    assert bank.accounts == before[id := Account.Account(id, wallet, blockId)];
    var hasFee := bank.HasAccount(ID_FEE);
    if fee > 0 && hasFee {
      s := bank.DepositBalance(ID_FEE, ID_GENESIS, ToInt64(fee));
      if s.Failed? {
        return Failed(TxTransfer);
      }
    }
  }

  method ApplyUserAccountUpsert(cx: Context, id: Id, fee: u64, meta: Bytes, bank: AccountBuffer, blockId: nat, strict: bool)
    returns (s: Status)
    modifies bank
    ensures (bank.accounts, s) == Upsert(cx, id, fee, meta, old(bank.accounts), blockId, strict)
  {
    if strict {
      s := CheckMinimumFee(cx, TxUserUpdate(id, fee, meta, Window(0, 0, 0)));
      if s.Failed? {
        return;
      }
    }
    var decoded := cx.codec.userAccountOf(meta);
    if decoded.None? {
      return Failed(Deserialize);
    }
    s := CheckWallet(decoded.value.wallet);
    if s.Failed? {
      return;
    }
    var known := bank.HasAccount(id);
    if !known {
      if strict {
        return Failed(AccountNotFound);
      }
    } else {
      s := bank.CheckBalance(id, 0, fee, decoded.value.wallet.balances);
      if s.Failed? {
        return Failed(TxValidation);
      }
    }
    s := ReplaceAccount(bank, id, decoded.value.wallet, blockId, fee);
  }

  method ApplyGenesisRenewal(cx: Context, tx: TypedTx, bank: AccountBuffer, blockId: nat, strict: bool) returns (s: Status)
    requires tx.TxRenewal?
    modifies bank
    ensures (bank.accounts, s) == GenesisRenewal(cx, tx, old(bank.accounts), blockId, strict)
  {
    var decoded := cx.codec.genesisMetaOf(tx.meta);
    if decoded.None? {
      return Failed(Deserialize);
    }
    s := CheckGenesisWallet(decoded.value.genesis.wallet);
    if s.Failed? {
      return;
    }
    if strict {
      s := CheckMinimumFee(cx, tx);
      if s.Failed? {
        return;
      }
    }
    var known := bank.HasAccount(ID_GENESIS);
    if !known {
      return if strict then Failed(AccountNotFound) else Done;
    }
    s := bank.CheckBalance(ID_GENESIS, 0, tx.fee, decoded.value.genesis.wallet.balances);
    if s.Failed? {
      return Failed(TxValidation);
    }
    s := ReplaceAccount(bank, ID_GENESIS, decoded.value.genesis.wallet, blockId, tx.fee);
  }

  // ----- ending accounts -----

  method ApplyEndUser(cx: Context, tx: TypedTx, bank: AccountBuffer) returns (s: Status)
    requires tx.TxEndUser?
    modifies bank
    ensures (bank.accounts, s) == EndUser(cx, tx, old(bank.accounts))
  {
    if tx.fee != 0 {
      return Failed(TxValidation);
    }
    if cx.config.None? {
      return Failed(Internal);
    }
    var known := bank.HasAccount(tx.walletId);
    if !known {
      return Failed(AccountNotFound);
    }
    var minimum := MinFeeForAccount(cx.codec, cx.ledger, cx.config.value, bank.accounts, tx.walletId);
    if minimum.Err? {
      return Failed(minimum.error);
    }
    var balance := bank.GetBalance(tx.walletId, ID_GENESIS);
    if balance >= minimum.value {
      return Failed(TxValidation);
    }
    s := bank.WriteOffAccount(tx.walletId);
    if s.Failed? {
      return Failed(InternalBuffer);
    }
  }

  // ----- configuration -----

  method ApplyConfigUpdate(cx: Context, tx: TypedTx, bank: AccountBuffer, blockId: nat, strict: bool) returns (s: Status)
    requires tx.TxConfig?
    modifies bank
    ensures (bank.accounts, s) == ConfigUpdate(cx, tx, old(bank.accounts), blockId, strict)
  {
    if tx.fee != 0 {
      return Failed(TxValidation);
    }
    var decoded := cx.codec.genesisMetaOf(tx.meta);
    if decoded.None? {
      return Failed(Deserialize);
    }
    s := CheckGenesisWallet(decoded.value.genesis.wallet);
    if s.Failed? {
      return;
    }
    if strict {
      s := CheckConfigChange(cx.config, decoded.value.config);
      if s.Failed? {
        return;
      }
    }
    s := bank.CheckBalance(ID_GENESIS, 0, 0, decoded.value.genesis.wallet.balances);
    if s.Failed? {
      return Failed(TxValidation);
    }
    s := ReplaceAccount(bank, ID_GENESIS, decoded.value.genesis.wallet, blockId, 0);
  }

  // ----- dispatch -----

  method HandleRecord(cx: Context, tx: TypedTx, bank: AccountBuffer, existing: Accounts, blockId: nat, strict: bool)
    returns (s: Status)
    requires !tx.TxGenesis?
    modifies bank
    ensures (bank.accounts, s) == Handle(cx, tx, old(bank.accounts), existing, blockId, strict)
  {
    match tx
    case TxDefault(_, _, _, _, _, _, _) =>
      if strict {
        s := ApplyDefaultTransferStrict(cx, tx, bank);
      } else {
        s := ApplyDefaultTransferLoose(tx, bank);
      }
    case TxNewUser(_, _, _, _, _, _) =>
      s := ApplyNewUser(cx, tx, bank, existing, blockId, strict);
    case TxConfig(_, _, _) =>
      s := ApplyConfigUpdate(cx, tx, bank, blockId, strict);
    case TxUserUpdate(id, fee, meta, _) =>
      s := ApplyUserAccountUpsert(cx, id, fee, meta, bank, blockId, strict);
    case TxRenewal(id, fee, meta) =>
      if id == ID_GENESIS {
        s := ApplyGenesisRenewal(cx, tx, bank, blockId, strict);
      } else {
        s := ApplyUserAccountUpsert(cx, id, fee, meta, bank, blockId, strict);
      }
    case TxEndUser(_, _, _) =>
      s := ApplyEndUser(cx, tx, bank);
  }

  /** The mempool entry point: seeds the overlay from the committed accounts, then runs the handler. */
  method ApplyToBuffer(cx: Context, committed: AccountBuffer, rec: Record, overlay: AccountBuffer, blockId: nat, slot: nat)
    returns (s: Status)
    requires committed != overlay
    modifies overlay
    ensures (overlay.accounts, s) == ApplyBuffer(cx, committed.accounts, rec, old(overlay.accounts), blockId, slot)
  {
    var decoded := cx.codec.decode(rec);
    if decoded.None? {
      return Failed(InvalidArgument);
    }
    var tx := decoded.value;
    if tx.TxGenesis? {
      return Failed(TxType);
    }
    var (wallet, w) := IdempotencyOf(tx);
    s := Idempotency(cx, wallet, w, slot, true);
    if s.Failed? {
      return;
    }
    var ids := SeedIds(tx);
    var i := 0;
    while i < |ids|
      invariant 0 <= i <= |ids|
      invariant SeedAll(old(overlay.accounts), committed.accounts, ids) == SeedAll(overlay.accounts, committed.accounts, ids[i..])
    {
      s := overlay.SeedFromCommittedIfMissing(committed, ids[i]);
      if s.Failed? {
        return;
      }
      i := i + 1;
    }
    s := HandleRecord(cx, tx, overlay, committed.accounts, blockId, true);
  }
}
