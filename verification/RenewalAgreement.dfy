/** Producer and validator agree on renewals: the records a producer collects are exactly those the validator demands, none
    is too early, and the handlers accept them in order exactly when every due account meets a simple condition. */
module RenewalAgreement {
  import opened Numbers
  import opened Outcomes
  import opened ChainTypes
  import opened Bank
  import opened BalanceBounds
  import opened LedgerView
  import opened TxFees
  import opened TxHandlers
  import opened TxIdempotency
  import opened BlockValidation
  import opened Overlay
  import opened Anchoring
  import opened Renewals

  // ----- what is assumed of the codec, record by record -----

  /** The metadata the account's renewal carries. */
  function UserPayload(cx: Context, b: Accounts, id: Id, fee: u64): Result<UserAccount>
    requires id in b
  {
    match ReadBlock(cx.ledger, b[id].blockId)
    case None => Err(BlockNotFound)
    case Some(node) =>
      match UserAccountFromBlock(cx.codec, node.block, id)
      case Err(e) => Err(e)
      case Ok(account) => RenewedUser(account, id, b[id].wallet, fee)
  }

  function GenesisPayload(cx: Context, b: Accounts, fee: u64): Result<GenesisAccountMeta>
    requires ID_GENESIS in b
  {
    match ReadBlock(cx.ledger, b[ID_GENESIS].blockId)
    case None => Err(BlockNotFound)
    case Some(node) =>
      match GenesisMetaFromBlock(cx.codec, node.block)
      case Err(e) => Err(e)
      case Ok(gm) => RenewedGenesis(gm, b[ID_GENESIS].wallet, fee)
  }

  /** The codec gives back the account's renewal record, whatever signatures it gets, and the metadata inside it. */
  ghost predicate Carried(cx: Context, b: Accounts, id: Id)
    requires id in b
  {
    && (RenewalTx(cx, b, id).Ok? ==> forall signatures ::
         cx.codec.decode(cx.codec.encode(RenewalTx(cx, b, id).value).(signatures := signatures)) == Some(RenewalTx(cx, b, id).value))
    && (MinFee(cx, b, id).Ok? ==>
         var fee := MinFee(cx, b, id).value;
         if id == ID_GENESIS then
           GenesisPayload(cx, b, fee).Ok? ==>
             cx.codec.genesisMetaOf(cx.codec.packGenesisMeta(GenesisPayload(cx, b, fee).value)) == Some(GenesisPayload(cx, b, fee).value)
         else
           UserPayload(cx, b, id, fee).Ok? ==>
             cx.codec.userAccountOf(cx.codec.packUserAccount(UserPayload(cx, b, id, fee).value)) == Some(UserPayload(cx, b, id, fee).value))
  }

  /** An account as the invariants of whole runs leave it. */
  ghost predicate Sane(cx: Context, b: Accounts, id: Id) {
    && id in b && b[id].id == id && BoundedWallet(id, b[id].wallet.balances)
    && cx.ledger.Has(b[id].blockId) && HoldsMeta(cx.codec, cx.ledger.At(b[id].blockId), id) && WalletOk(id, b[id].wallet)
    && Carried(cx, b, id)
  }

  /** The invariants of whole runs make every account sane. */
  lemma InvariantsMakeSane(cx: Context, b: Accounts, id: Id)
    requires Bounded(b) && Anchored(cx.codec, cx.ledger, b) && id in b && Carried(cx, b, id)
    ensures Sane(cx, b, id)
  {
    hide HoldsMeta, WalletOk, Carried, BoundedWallet;
  }

  // ----- which renewals can be made, and which are accepted -----

  /** The fee can be computed, and it does not take a renewed account below what 64 bits hold. */
  predicate Creatable(cx: Context, b: Accounts, id: Id) {
    MinFee(cx, b, id).Ok? &&
    (id == ID_GENESIS || id == ID_FEE ==> BalanceOf(b, id, ID_GENESIS) >= INT64_MIN + MinFee(cx, b, id).value)
  }

  /** The genesis account must hold the native token to pay with; an account that cannot pay needs a recycle account to end
      in. */
  predicate Renewable(cx: Context, b: Accounts, id: Id) {
    Creatable(cx, b, id) &&
    if id == ID_GENESIS then ID_GENESIS in b && (ID_GENESIS in b[id].wallet.balances || MinFee(cx, b, id).value == 0)
    else BalanceOf(b, id, ID_GENESIS) < MinFee(cx, b, id).value ==> ID_RECYCLE in b
  }

  lemma NativeHeld(b: Accounts, id: Id)
    requires id in b && BoundedWallet(id, b[id].wallet.balances)
    ensures InInt64(BalanceOf(b, id, ID_GENESIS)) && (id != ID_GENESIS ==> BalanceOf(b, id, ID_GENESIS) >= 0)
    ensures id != ID_GENESIS ==> Wrap(BalanceOf(b, id, ID_GENESIS)) == BalanceOf(b, id, ID_GENESIS)
  {
  }

  /** When a renewal record can be made, and what it is. */
  lemma CreationSucceedsIff(cx: Context, b: Accounts, id: Id)
    requires Sane(cx, b, id)
    ensures RenewalTx(cx, b, id).Ok? <==> Creatable(cx, b, id)
    ensures Creatable(cx, b, id) ==>
      var fee := MinFee(cx, b, id).value;
      RenewalTx(cx, b, id) == Ok(
        if id == ID_GENESIS then TxRenewal(id, fee, cx.codec.packGenesisMeta(GenesisPayload(cx, b, fee).value))
        else if id != ID_FEE && BalanceOf(b, id, ID_GENESIS) < fee then TxEndUser(id, 0, [])
        else TxRenewal(id, fee, cx.codec.packUserAccount(UserPayload(cx, b, id, fee).value)))
    ensures Creatable(cx, b, id) && id == ID_GENESIS ==> GenesisPayload(cx, b, MinFee(cx, b, id).value).Ok?
    ensures Creatable(cx, b, id) && id != ID_GENESIS && (id == ID_FEE || BalanceOf(b, id, ID_GENESIS) >= MinFee(cx, b, id).value) ==>
      UserPayload(cx, b, id, MinFee(cx, b, id).value).Ok?
  {
    hide WalletOk, Carried, BoundedWallet, UserAccountFromBlock, GenesisMetaFromBlock, MinFeeForAccount;
    NativeHeld(b, id);
  }

  // ----- one record against the accounts as its predecessors left them -----

  function Positive(x: int): nat {
    if x > 0 then x else 0
  }

  /** The balances of `after` are those of `before` and, token by token, what `more` says. */
  ghost predicate Adds(before: Account, after: Account, more: Id -> int) {
    after.id == before.id && after.blockId == before.blockId &&
    forall t :: TokenBalance(after.wallet.balances, t) == TokenBalance(before.wallet.balances, t) + more(t)
  }

  function OnlyNative(n: int): Id -> int {
    (t: Id) => if t == ID_GENESIS then n else 0
  }

  function Left(a: Account, ends: bool): Id -> int {
    (t: Id) => if ends then Positive(TokenBalance(a.wallet.balances, t)) else 0
  }

  /** Besides the account itself only the fee account changes, by the fee, or the recycle account, by what an ended account
      leaves. */
  ghost predicate OnlyPays(before: Accounts, after: Accounts, id: Id, fee: nat, ends: bool)
    requires id in before
  {
    && (forall other | other != id && other != ID_FEE && other != ID_RECYCLE ::
         (other in before <==> other in after) && (other in before ==> before[other] == after[other]))
    && (ID_FEE in before <==> ID_FEE in after) && (ID_RECYCLE in before <==> ID_RECYCLE in after)
    && (ID_FEE in before ==> Adds(before[ID_FEE], after[ID_FEE], OnlyNative(if ends then 0 else fee)))
    && (ID_RECYCLE in before ==> Adds(before[ID_RECYCLE], after[ID_RECYCLE], Left(before[id], ends)))
  }

  /** The accounts `c` still hold the account as it is in `b`, and have room for its fee. */
  ghost predicate Ready(cx: Context, b: Accounts, c: Accounts, id: Id) {
    && id != ID_FEE && id != ID_RECYCLE && id in b && id in c && c[id] == b[id]
    && (MinFee(cx, b, id).Ok? && ID_FEE in c ==> BalanceOf(c, ID_FEE, ID_GENESIS) + MinFee(cx, b, id).value <= INT64_MAX)
  }

  /** The payload holds what the account holds minus the fee: the exact check of the handlers. */
  lemma PayingVerifies(c: Accounts, id: Id, fee: u64)
    requires id in c && fee <= INT64_MAX && InInt64(BalanceOf(c, id, ID_GENESIS))
    requires ID_GENESIS in c[id].wallet.balances ==> BalanceOf(c, id, ID_GENESIS) - fee >= INT64_MIN
    ensures VerifyBalance(c, id, 0, fee, Paying(c[id].wallet, fee).balances).Done? <==>
      ID_GENESIS in c[id].wallet.balances || fee == 0
  {
  }

  lemma ReplacingPays(c: Accounts, id: Id, w: Wallet, blockId: nat, fee: u64)
    requires id in c && id != ID_FEE && id != ID_RECYCLE && fee <= INT64_MAX
    requires ID_FEE in c ==> BalanceOf(c, ID_FEE, ID_GENESIS) + fee <= INT64_MAX
    ensures ReplaceAndPay(c, id, w, blockId, fee).1.Done?
    ensures OnlyPays(c, ReplaceAndPay(c, id, w, blockId, fee).0, id, fee, false)
  {
  }

  /** The fee for an account's metadata covers what its renewal is charged. */
  lemma FeeSuffices(cx: Context, tx: TypedTx, size: nat, fee: u64)
    requires cx.config.Some? && MinFeeForSize(cx.config.value, size) == Ok(fee) && tx.fee == fee
    requires BillableMetaSize(cx.codec, cx.config.value, tx).Ok? && BillableMetaSize(cx.codec, cx.config.value, tx).value <= size
    ensures CheckFee(cx, tx).Done?
  {
    hide MinFeeForSize, BillableMetaSize;
    FeeMonotone(cx.config.value, BillableMetaSize(cx.codec, cx.config.value, tx).value, size);
  }

  lemma UserRenewalHandled(cx: Context, b: Accounts, c: Accounts, id: Id, blockId: nat)
    requires Sane(cx, b, id) && Ready(cx, b, c, id) && Creatable(cx, b, id)
    requires id != ID_GENESIS && BalanceOf(b, id, ID_GENESIS) >= MinFee(cx, b, id).value
    ensures var fee := MinFee(cx, b, id).value;
      var r := Upsert(cx, id, fee, cx.codec.packUserAccount(UserPayload(cx, b, id, fee).value), c, blockId, true);
      r.1.Done? && OnlyPays(c, r.0, id, fee, false)
  {
    hide MinFeeForSize, BoundedWallet, UserAccountFromBlock, OnlyPays, ReplaceAndPay, VerifyBalance;
    CreationSucceedsIff(cx, b, id);
    NativeHeld(b, id);
    var fee := MinFee(cx, b, id).value;
    var renewed := UserPayload(cx, b, id, fee).value;
    var meta := cx.codec.packUserAccount(renewed);
    assert renewed.wallet == Paying(c[id].wallet, fee);
    PayingVerifies(c, id, fee);
    FeeSuffices(cx, TxUserUpdate(id, fee, meta, Window(0, 0, 0)), |renewed.meta|, fee);
    ReplacingPays(c, id, renewed.wallet, blockId, fee);
  }

  lemma GenesisRenewalHandled(cx: Context, b: Accounts, c: Accounts, blockId: nat)
    requires Sane(cx, b, ID_GENESIS) && Ready(cx, b, c, ID_GENESIS) && Creatable(cx, b, ID_GENESIS)
    ensures var fee := MinFee(cx, b, ID_GENESIS).value;
      var r := GenesisRenewal(cx, TxRenewal(ID_GENESIS, fee, cx.codec.packGenesisMeta(GenesisPayload(cx, b, fee).value)), c, blockId, true);
      (r.1.Done? <==> Renewable(cx, b, ID_GENESIS)) && (r.1.Done? ==> OnlyPays(c, r.0, ID_GENESIS, fee, false))
  {
    hide MinFeeForSize, BoundedWallet, GenesisMetaFromBlock, OnlyPays, ReplaceAndPay, VerifyBalance;
    CreationSucceedsIff(cx, b, ID_GENESIS);
    NativeHeld(b, ID_GENESIS);
    var fee := MinFee(cx, b, ID_GENESIS).value;
    var renewed := GenesisPayload(cx, b, fee).value;
    PayingVerifies(c, ID_GENESIS, fee);
    FeeSuffices(cx, TxRenewal(ID_GENESIS, fee, cx.codec.packGenesisMeta(renewed)), |renewed.genesis.meta|, fee);
    ReplacingPays(c, ID_GENESIS, renewed.genesis.wallet, blockId, fee);
  }

  lemma EndingHandled(cx: Context, b: Accounts, c: Accounts, id: Id)
    requires Sane(cx, b, id) && Ready(cx, b, c, id) && Creatable(cx, b, id)
    requires id != ID_GENESIS && BalanceOf(b, id, ID_GENESIS) < MinFee(cx, b, id).value
    ensures var r := EndUser(cx, TxEndUser(id, 0, []), c);
      (r.1.Done? <==> ID_RECYCLE in c) && (r.1.Done? ==> OnlyPays(c, r.0, id, 0, true))
  {
    hide Absorb, HoldsMeta, WalletOk, Carried, BoundedWallet, MinFeeForSize, UserAccountFromBlock, GenesisMetaFromBlock;
    assert MinFeeForAccount(cx.codec, cx.ledger, cx.config.value, c, id) == MinFee(cx, b, id);
    if ID_RECYCLE in c {
      Absorbed(c[ID_RECYCLE].wallet.balances, c[id].wallet.balances);
    }
  }

  lemma Absorbed(recycle: Balances, from: Balances)
    ensures forall t :: TokenBalance(Absorb(recycle, from), t) == TokenBalance(recycle, t) + Positive(TokenBalance(from, t))
  {
  }

  /** The account cannot pay for its renewal, so its record ends it. */
  predicate Ends(cx: Context, b: Accounts, id: Id) {
    id != ID_GENESIS && id != ID_FEE && MinFee(cx, b, id).Ok? && BalanceOf(b, id, ID_GENESIS) < MinFee(cx, b, id).value
  }

  /** A collected record, other than that of the fee or the recycle account, is accepted exactly when its account is renewable,
      whatever happened to other accounts before. */
  lemma CollectedHandled(cx: Context, b: Accounts, c: Accounts, id: Id, existing: Accounts, blockId: nat)
    requires Sane(cx, b, id) && Ready(cx, b, c, id) && Creatable(cx, b, id)
    requires RenewalTx(cx, b, id).value.TxEndUser? ==> (ID_RECYCLE in b <==> ID_RECYCLE in c)
    ensures var r := Handle(cx, RenewalTx(cx, b, id).value, c, existing, blockId, true);
      && (r.1.Done? <==> Renewable(cx, b, id))
      && (r.1.Done? ==> OnlyPays(c, r.0, id, MinFee(cx, b, id).value, Ends(cx, b, id)))
  {
    hide Sane, Upsert, GenesisRenewal, EndUser, UserPayload, GenesisPayload, MinFee, OnlyPays;
    CreationSucceedsIff(cx, b, id);
    if id == ID_GENESIS {
      GenesisRenewalHandled(cx, b, c, blockId);
    } else if BalanceOf(b, id, ID_GENESIS) < MinFee(cx, b, id).value {
      EndingHandled(cx, b, c, id);
      if ID_RECYCLE in c {
        NothingPaid(c, EndUser(cx, TxEndUser(id, 0, []), c).0, id, MinFee(cx, b, id).value);
      }
    } else {
      UserRenewalHandled(cx, b, c, id, blockId);
    }
  }

  lemma NothingPaid(before: Accounts, after: Accounts, id: Id, fee: nat)
    requires id in before
    ensures OnlyPays(before, after, id, 0, true) ==> OnlyPays(before, after, id, fee, true)
  {
  }

  /** The fee account's payload is its wallet as it was, with the fee still in it, while the handlers expect the fee to have been
      paid. The record is accepted if and only if the records before it have paid exactly its fee into the account. */
  lemma FeeRenewalAcceptedIff(cx: Context, b: Accounts, c: Accounts, credited: nat, existing: Accounts, blockId: nat)
    requires Sane(cx, b, ID_FEE) && Creatable(cx, b, ID_FEE) && ID_FEE in c && Adds(b[ID_FEE], c[ID_FEE], OnlyNative(credited))
    requires BalanceOf(c, ID_FEE, ID_GENESIS) + MinFee(cx, b, ID_FEE).value <= INT64_MAX
    ensures var r := Handle(cx, RenewalTx(cx, b, ID_FEE).value, c, existing, blockId, true);
      && (r.1.Done? <==> MinFee(cx, b, ID_FEE).value == credited)
      && (r.1.Done? ==> r.0.Keys == c.Keys && BalanceOf(r.0, ID_FEE, ID_GENESIS) == BalanceOf(c, ID_FEE, ID_GENESIS)
                        && forall id | id in c && id != ID_FEE :: r.0[id] == c[id])
  {
    hide MinFeeForSize, BoundedWallet, UserAccountFromBlock, SameCustomTokens, CheckFee, CheckWallet, VerifyBalance;
    CreationSucceedsIff(cx, b, ID_FEE);
    NativeHeld(b, ID_FEE);
    var fee := MinFee(cx, b, ID_FEE).value;
    var renewed := UserPayload(cx, b, ID_FEE, fee).value;
    assert renewed.wallet == b[ID_FEE].wallet;
    FeeSuffices(cx, TxUserUpdate(ID_FEE, fee, cx.codec.packUserAccount(renewed), Window(0, 0, 0)), |renewed.meta|, fee);
    AddedVerifies(c, ID_FEE, b[ID_FEE], credited, fee);
    SaneWallet(cx, b, ID_FEE);
  }

  lemma SaneWallet(cx: Context, b: Accounts, id: Id)
    requires Sane(cx, b, id) && id != ID_GENESIS
    ensures CheckWallet(b[id].wallet).Done? && forall fee :: CheckWallet(Paying(b[id].wallet, fee)).Done?
  {
  }

  lemma AddedVerifies(c: Accounts, id: Id, a: Account, credited: nat, fee: u64)
    requires id in c && Adds(a, c[id], OnlyNative(credited)) && BalanceOf(c, id, ID_GENESIS) + fee <= INT64_MAX
    requires TokenBalance(a.wallet.balances, ID_GENESIS) >= INT64_MIN && fee <= INT64_MAX
    ensures VerifyBalance(c, id, 0, fee, a.wallet.balances).Done? <==> fee == credited
  {
    forall t
      ensures t != ID_GENESIS ==> TokenBalance(c[id].wallet.balances, t) == TokenBalance(a.wallet.balances, t)
    {
      assert OnlyNative(credited)(t) == if t == ID_GENESIS then credited else 0;
    }
  }

  /** The recycle account's record is accepted unless accounts that were ended before it have left something in it: then its
      payload is out of date, or, if the record ends it, it may have become able to pay. */
  lemma RecycleRecordAcceptedIff(cx: Context, b: Accounts, c: Accounts, gained: Id -> int, existing: Accounts, blockId: nat)
    requires Sane(cx, b, ID_RECYCLE) && Creatable(cx, b, ID_RECYCLE) && ID_RECYCLE in c && Adds(b[ID_RECYCLE], c[ID_RECYCLE], gained)
    requires ID_FEE in c ==> BalanceOf(c, ID_FEE, ID_GENESIS) + MinFee(cx, b, ID_RECYCLE).value <= INT64_MAX
    ensures var r := Handle(cx, RenewalTx(cx, b, ID_RECYCLE).value, c, existing, blockId, true);
      && (r.1.Done? <==>
           if Ends(cx, b, ID_RECYCLE) then BalanceOf(b, ID_RECYCLE, ID_GENESIS) + gained(ID_GENESIS) < MinFee(cx, b, ID_RECYCLE).value
           else forall t :: gained(t) == 0)
      && (r.1.Done? ==>
           && (forall id | id != ID_RECYCLE && id != ID_FEE :: (id in c <==> id in r.0) && (id in c ==> r.0[id] == c[id]))
           && (ID_FEE in c <==> ID_FEE in r.0)
           && (ID_FEE in c ==> Adds(c[ID_FEE], r.0[ID_FEE],
                 OnlyNative(if Ends(cx, b, ID_RECYCLE) then 0 else MinFee(cx, b, ID_RECYCLE).value))))
  {
    hide MinFeeForSize, BoundedWallet, UserAccountFromBlock, CheckFee, CheckWallet, VerifyBalance, Absorb, GenesisMetaFromBlock, ReplaceAndPay,
      EndUser, Upsert;
    CreationSucceedsIff(cx, b, ID_RECYCLE);
    NativeHeld(b, ID_RECYCLE);
    if Ends(cx, b, ID_RECYCLE) {
      RecycleEnds(cx, b, c, gained);
    } else {
      RecycleRenews(cx, b, c, gained, blockId);
    }
  }

  lemma RecycleEnds(cx: Context, b: Accounts, c: Accounts, gained: Id -> int)
    requires Sane(cx, b, ID_RECYCLE) && Ends(cx, b, ID_RECYCLE) && ID_RECYCLE in c && Adds(b[ID_RECYCLE], c[ID_RECYCLE], gained)
    ensures var r := EndUser(cx, TxEndUser(ID_RECYCLE, 0, []), c);
      && (r.1.Done? <==> BalanceOf(b, ID_RECYCLE, ID_GENESIS) + gained(ID_GENESIS) < MinFee(cx, b, ID_RECYCLE).value)
      && (r.1.Done? ==> r.0.Keys == c.Keys - {ID_RECYCLE} && forall id | id in r.0 :: r.0[id] == c[id])
  {
    hide Absorb, HoldsMeta, WalletOk, Carried, BoundedWallet, MinFeeForSize, UserAccountFromBlock, GenesisMetaFromBlock;
    assert MinFeeForAccount(cx.codec, cx.ledger, cx.config.value, c, ID_RECYCLE) == MinFee(cx, b, ID_RECYCLE);
  }

  lemma RecycleRenews(cx: Context, b: Accounts, c: Accounts, gained: Id -> int, blockId: nat)
    requires Sane(cx, b, ID_RECYCLE) && Creatable(cx, b, ID_RECYCLE) && !Ends(cx, b, ID_RECYCLE)
    requires ID_RECYCLE in c && Adds(b[ID_RECYCLE], c[ID_RECYCLE], gained)
    requires ID_FEE in c ==> BalanceOf(c, ID_FEE, ID_GENESIS) + MinFee(cx, b, ID_RECYCLE).value <= INT64_MAX
    requires UserPayload(cx, b, ID_RECYCLE, MinFee(cx, b, ID_RECYCLE).value).Ok?
    ensures var fee := MinFee(cx, b, ID_RECYCLE).value;
      var r := Upsert(cx, ID_RECYCLE, fee, cx.codec.packUserAccount(UserPayload(cx, b, ID_RECYCLE, fee).value), c, blockId, true);
      && (r.1.Done? <==> forall t :: gained(t) == 0)
      && (r.1.Done? ==>
           && (forall id | id != ID_RECYCLE && id != ID_FEE :: (id in c <==> id in r.0) && (id in c ==> r.0[id] == c[id]))
           && (ID_FEE in c <==> ID_FEE in r.0)
           && (ID_FEE in c ==> Adds(c[ID_FEE], r.0[ID_FEE], OnlyNative(fee))))
  {
    hide MinFeeForSize, BoundedWallet, UserAccountFromBlock, CheckFee, CheckWallet, VerifyBalance, ReplaceAndPay, Adds;
    NativeHeld(b, ID_RECYCLE);
    var fee := MinFee(cx, b, ID_RECYCLE).value;
    var renewed := UserPayload(cx, b, ID_RECYCLE, fee).value;
    assert renewed.wallet == Paying(b[ID_RECYCLE].wallet, fee);
    FeeSuffices(cx, TxUserUpdate(ID_RECYCLE, fee, cx.codec.packUserAccount(renewed), Window(0, 0, 0)), |renewed.meta|, fee);
    GainedVerifies(c, b[ID_RECYCLE], gained, fee);
    SaneWallet(cx, b, ID_RECYCLE);
    ReplacingRecycle(c, renewed.wallet, blockId, fee);
  }

  lemma ReplacingRecycle(c: Accounts, w: Wallet, blockId: nat, fee: u64)
    requires fee <= INT64_MAX && (ID_FEE in c ==> BalanceOf(c, ID_FEE, ID_GENESIS) + fee <= INT64_MAX)
    ensures var r := ReplaceAndPay(c, ID_RECYCLE, w, blockId, fee);
      && r.1.Done?
      && (forall id | id != ID_RECYCLE && id != ID_FEE :: (id in c <==> id in r.0) && (id in c ==> r.0[id] == c[id]))
      && (ID_FEE in c <==> ID_FEE in r.0) && (ID_FEE in c ==> Adds(c[ID_FEE], r.0[ID_FEE], OnlyNative(fee)))
  {
  }

  lemma GainedVerifies(c: Accounts, a: Account, gained: Id -> int, fee: u64)
    requires ID_RECYCLE in c && Adds(a, c[ID_RECYCLE], gained)
    requires fee <= TokenBalance(a.wallet.balances, ID_GENESIS) <= INT64_MAX
    ensures VerifyBalance(c, ID_RECYCLE, 0, fee, Paying(a.wallet, fee).balances).Done? <==> forall t :: gained(t) == 0
  {
    var expected := Paying(a.wallet, fee).balances;
    forall t
      ensures TokenBalance(expected, t) == TokenBalance(a.wallet.balances, t) - (if t == ID_GENESIS then fee as int else 0)
    {
    }
    if VerifyBalance(c, ID_RECYCLE, 0, fee, expected).Done? {
      forall t
        ensures gained(t) == 0
      {
        assert TokenBalance(c[ID_RECYCLE].wallet.balances, t) == TokenBalance(a.wallet.balances, t) + gained(t);
      }
    }
  }

  // ----- all records against the overlay -----

  /** Different accounts, all sane. */
  ghost predicate Due(cx: Context, b: Accounts, ids: seq<Id>) {
    && (forall i, j | 0 <= i < j < |ids| :: ids[i] != ids[j])
    && (forall i | 0 <= i < |ids| :: Sane(cx, b, ids[i]))
  }

  function FeeOf(cx: Context, b: Accounts, id: Id): nat {
    if MinFee(cx, b, id).Ok? then MinFee(cx, b, id).value else 0
  }

  function TotalFees(cx: Context, b: Accounts, ids: seq<Id>): nat
    decreases |ids|
  {
    if ids == [] then 0 else FeeOf(cx, b, ids[0]) + TotalFees(cx, b, ids[1..])
  }

  /** What the renewals of these accounts pay into the fee account. */
  function Credited(cx: Context, b: Accounts, ids: seq<Id>): nat
    decreases |ids|
  {
    if ids == [] then 0
    else
      var id := ids[|ids| - 1];
      Credited(cx, b, ids[..|ids| - 1]) + (if Ends(cx, b, id) then 0 else FeeOf(cx, b, id))
  }

  /** What these accounts leave in the recycle account, as far as they are ended. */
  function Gained(cx: Context, b: Accounts, ids: seq<Id>, t: Id): nat
    decreases |ids|
  {
    if ids == [] then 0
    else
      var id := ids[|ids| - 1];
      Gained(cx, b, ids[..|ids| - 1], t) + (if Ends(cx, b, id) then Positive(BalanceOf(b, id, t)) else 0)
  }

  function GainedOf(cx: Context, b: Accounts, ids: seq<Id>): Id -> int {
    (t: Id) => Gained(cx, b, ids, t)
  }

  /** Whether the record collected for an account is accepted behind those collected for the accounts `done`. */
  ghost predicate Passes(cx: Context, b: Accounts, done: seq<Id>, id: Id) {
    if id == ID_FEE then Creatable(cx, b, id) && MinFee(cx, b, id).value == Credited(cx, b, done)
    else if id == ID_RECYCLE then
      Creatable(cx, b, id) &&
      if Ends(cx, b, id) then BalanceOf(b, id, ID_GENESIS) + Gained(cx, b, done, ID_GENESIS) < MinFee(cx, b, id).value
      else forall t :: Gained(cx, b, done, t) == 0
    else Renewable(cx, b, id)
  }

  ghost predicate AllPass(cx: Context, b: Accounts, ids: seq<Id>) {
    forall i | 0 <= i < |ids| :: Passes(cx, b, ids[..i], ids[i])
  }

  /** The overlay behind the records of the accounts `done`, before those of `rest`. */
  ghost predicate Midway(cx: Context, b: Accounts, overlay: Accounts, done: seq<Id>, rest: seq<Id>) {
    && (forall id | id in rest && id != ID_FEE && id != ID_RECYCLE :: id !in overlay)
    && ID_FEE in b && (ID_RECYCLE in overlay ==> ID_RECYCLE in b)
    && BalanceOf(b + overlay, ID_FEE, ID_GENESIS) + TotalFees(cx, b, rest) <= INT64_MAX
    && (ID_FEE !in done ==> Adds(b[ID_FEE], (b + overlay)[ID_FEE], OnlyNative(Credited(cx, b, done))))
    && (ID_RECYCLE !in done && ID_RECYCLE in b ==> Adds(b[ID_RECYCLE], (b + overlay)[ID_RECYCLE], GainedOf(cx, b, done)))
  }

  /** The records are those of the accounts, one by one. */
  ghost predicate CollectedFor(cx: Context, b: Accounts, ids: seq<Id>, records: seq<Record>) {
    && |records| == |ids|
    && forall i | 0 <= i < |ids| ::
      RenewalTx(cx, b, ids[i]).Ok? && cx.codec.decode(records[i]) == Some(RenewalTx(cx, b, ids[i]).value)
  }

  lemma {:induction false} SeedingSucceedsIff(overlay: Accounts, b: Accounts, ids: seq<Id>)
    requires IdsMatch(b)
    ensures SeedAll(overlay, b, ids).1.Done? <==> forall id | id in ids :: id in overlay || id in b
    decreases |ids|
  {
    if ids != [] {
      SeedingSucceedsIff(SeedFromCommitted(overlay, b, ids[0]).0, b, ids[1..]);
      assert forall id | id in ids :: id == ids[0] || id in ids[1..];
    }
  }

  lemma SeedsLast(overlay: Accounts, b: Accounts, id: Id)
    ensures SeedAll(overlay, b, [id]) == SeedFromCommitted(overlay, b, id)
  {
    assert [id][1..] == [];
  }

  /** What seeding puts into the overlay for a collected record: copies of the account, and of the fee or the recycle account. */
  lemma SeedsFor(b: Accounts, overlay: Accounts, tx: TypedTx, id: Id)
    requires (tx.TxRenewal? || tx.TxEndUser?) && tx.walletId == id && id in b && ID_FEE in b && IdsMatch(b)
    ensures var (seeded, s) := SeedAll(overlay, b, SeedIds(tx));
      && (s.Done? <==> (tx.TxEndUser? ==> ID_RECYCLE in overlay || ID_RECYCLE in b))
      && (s.Done? ==> id in seeded && b + seeded == b + overlay)
      && (s.Done? && tx.TxEndUser? ==> ID_RECYCLE in seeded)
      && (s.Done? && tx.TxRenewal? && tx.fee > 0 ==> ID_FEE in seeded)
      && (s.Done? ==> forall other | other != id && other != ID_FEE && other != ID_RECYCLE :: other in seeded <==> other in overlay)
      && (s.Done? && ID_RECYCLE in seeded ==> ID_RECYCLE in overlay || ID_RECYCLE in b)
  {
    SeedingSucceedsIff(overlay, b, SeedIds(tx));
    if SeedAll(overlay, b, SeedIds(tx)).1.Done? {
      SeedingKeepsMeaning(overlay, b, SeedIds(tx), {});
      hide SeedAll;
      assert id in SeedIds(tx) && (tx.TxEndUser? ==> ID_RECYCLE in SeedIds(tx));
      assert tx.TxRenewal? && tx.fee > 0 ==> ID_FEE in SeedIds(tx);
      assert b + SeedAll(overlay, b, SeedIds(tx)).0 == Denotes(b, SeedAll(overlay, b, SeedIds(tx)).0, {});
      assert b + overlay == Denotes(b, overlay, {});
    }
  }

  lemma AddsTwice(a: Account, c: Account, d: Account, more: Id -> int, again: Id -> int, all: Id -> int)
    requires Adds(a, c, more) && Adds(c, d, again) && forall t :: all(t) == more(t) + again(t)
    ensures Adds(a, d, all)
  {
  }

  lemma OneMoreDone(cx: Context, b: Accounts, done: seq<Id>, id: Id)
    ensures Credited(cx, b, done + [id]) == Credited(cx, b, done) + (if Ends(cx, b, id) then 0 else FeeOf(cx, b, id))
    ensures forall t :: Gained(cx, b, done + [id], t) == Gained(cx, b, done, t) + (if Ends(cx, b, id) then Positive(BalanceOf(b, id, t)) else 0)
  {
    assert (done + [id])[..|done|] == done;
  }

  /** One collected record offered to the overlay, with what its account and its record are. */
  ghost predicate Offered(cx: Context, b: Accounts, overlay: Accounts, done: seq<Id>, id: Id, rest: seq<Id>, rec: Record) {
    && Due(cx, b, done + [id] + rest) && IdsMatch(b) && Midway(cx, b, overlay, done, [id] + rest)
    && RenewalTx(cx, b, id).Ok? && cx.codec.decode(rec) == Some(RenewalTx(cx, b, id).value)
  }

  lemma OfferedKnows(cx: Context, b: Accounts, overlay: Accounts, done: seq<Id>, id: Id, rest: seq<Id>, rec: Record)
    requires Offered(cx, b, overlay, done, id, rest, rec)
    ensures RenewalTx(cx, b, id).Ok? && cx.codec.decode(rec) == Some(RenewalTx(cx, b, id).value) && RenewalTx(cx, b, id).value.walletId == id
    ensures Sane(cx, b, id) && id in b && id !in rest && id !in done && Creatable(cx, b, id) && MinFee(cx, b, id).Ok?
    ensures FeeOf(cx, b, id) == MinFee(cx, b, id).value && IdsMatch(b) && ID_FEE in b
    ensures RenewalTx(cx, b, id).value.TxEndUser? <==> Ends(cx, b, id)
    ensures !Ends(cx, b, id) ==> RenewalTx(cx, b, id).value.TxRenewal? && RenewalTx(cx, b, id).value.fee == FeeOf(cx, b, id)
    ensures TotalFees(cx, b, [id] + rest) == FeeOf(cx, b, id) + TotalFees(cx, b, rest)
    ensures forall other | other in rest && other != ID_FEE && other != ID_RECYCLE :: other !in overlay
    ensures id != ID_FEE && id != ID_RECYCLE ==> id !in overlay
    ensures ID_RECYCLE in overlay ==> ID_RECYCLE in b
    ensures BalanceOf(b + overlay, ID_FEE, ID_GENESIS) + FeeOf(cx, b, id) + TotalFees(cx, b, rest) <= INT64_MAX
    ensures ID_FEE !in done ==> Adds(b[ID_FEE], (b + overlay)[ID_FEE], OnlyNative(Credited(cx, b, done)))
    ensures ID_RECYCLE !in done && ID_RECYCLE in b ==> Adds(b[ID_RECYCLE], (b + overlay)[ID_RECYCLE], GainedOf(cx, b, done))
  {
    hide Sane, RenewalTx, MinFee, Adds, Credited, Gained, UserPayload, GenesisPayload;
    var all := done + [id] + rest;
    assert all[|done|] == id;
    forall i | 0 <= i < |rest|
      ensures rest[i] != id
    {
      assert all[|done| + 1 + i] == rest[i];
    }
    forall i | 0 <= i < |done|
      ensures done[i] != id
    {
      assert all[i] == done[i];
    }
    CreationSucceedsIff(cx, b, id);
    assert ([id] + rest)[0] == id && ([id] + rest)[1..] == rest;
    assert id in [id] + rest && forall other | other in rest :: other in [id] + rest;
  }

  /** The effect of a collected record on what the overlay shows: the midway state goes on. */
  lemma MidwayGoesOn(cx: Context, b: Accounts, seeded: Accounts, after: Accounts, done: seq<Id>, id: Id, rest: seq<Id>)
    requires id in b && id !in rest && MinFee(cx, b, id).Ok? && ID_FEE in b
    requires forall other | other in rest && other != ID_FEE && other != ID_RECYCLE :: other !in seeded
    requires forall other | other != id && other != ID_FEE && other != ID_RECYCLE :: other in seeded <==> other in after
    requires ID_RECYCLE in after ==> ID_RECYCLE in b
    requires BalanceOf(b + seeded, ID_FEE, ID_GENESIS) + FeeOf(cx, b, id) + TotalFees(cx, b, rest) <= INT64_MAX
    requires ID_FEE !in done ==> Adds(b[ID_FEE], (b + seeded)[ID_FEE], OnlyNative(Credited(cx, b, done)))
    requires ID_RECYCLE !in done && ID_RECYCLE in b ==> Adds(b[ID_RECYCLE], (b + seeded)[ID_RECYCLE], GainedOf(cx, b, done))
    requires if id == ID_FEE then BalanceOf(b + after, ID_FEE, ID_GENESIS) == BalanceOf(b + seeded, ID_FEE, ID_GENESIS)
      else Adds((b + seeded)[ID_FEE], (b + after)[ID_FEE], OnlyNative(if Ends(cx, b, id) then 0 else FeeOf(cx, b, id)))
    requires id != ID_RECYCLE && ID_RECYCLE in b ==>
      Adds((b + seeded)[ID_RECYCLE], (b + after)[ID_RECYCLE], Left(b[id], Ends(cx, b, id)))
    ensures Midway(cx, b, after, done + [id], rest)
  {
    hide MinFee, Adds, Credited, Gained, Ends;
    OneMoreDone(cx, b, done, id);
    if id != ID_FEE {
      NativeAdded((b + seeded)[ID_FEE], (b + after)[ID_FEE], if Ends(cx, b, id) then 0 else FeeOf(cx, b, id));
    }
    if ID_FEE !in done + [id] {
      assert ID_FEE !in done && id != ID_FEE;
      AddsTwice(b[ID_FEE], (b + seeded)[ID_FEE], (b + after)[ID_FEE], OnlyNative(Credited(cx, b, done)),
                OnlyNative(if Ends(cx, b, id) then 0 else FeeOf(cx, b, id)), OnlyNative(Credited(cx, b, done + [id])));
    }
    if ID_RECYCLE !in done + [id] && ID_RECYCLE in b {
      assert ID_RECYCLE !in done && id != ID_RECYCLE;
      AddsTwice(b[ID_RECYCLE], (b + seeded)[ID_RECYCLE], (b + after)[ID_RECYCLE], GainedOf(cx, b, done),
                Left(b[id], Ends(cx, b, id)), GainedOf(cx, b, done + [id]));
    }
  }

  lemma NativeAdded(a: Account, c: Account, n: nat)
    requires Adds(a, c, OnlyNative(n))
    ensures TokenBalance(c.wallet.balances, ID_GENESIS) == TokenBalance(a.wallet.balances, ID_GENESIS) + n
  {
    assert OnlyNative(n)(ID_GENESIS) == n;
  }

  lemma OrdinaryStep(cx: Context, b: Accounts, overlay: Accounts, done: seq<Id>, id: Id, rest: seq<Id>, rec: Record, blockId: nat, slot: nat)
    requires Offered(cx, b, overlay, done, id, rest, rec) && id != ID_FEE && id != ID_RECYCLE
    ensures var (after, s) := ApplyBuffer(cx, b, rec, overlay, blockId, slot);
      (s.Done? <==> Passes(cx, b, done, id)) && (s.Done? ==> Midway(cx, b, after, done + [id], rest))
  {
    hide Sane, Handle, SeedAll, RenewalTx, Renewable, MinFee, Creatable, Midway, Offered, Due, IdsMatch, Credited, Gained, TotalFees, FeeOf, Ends,
      Adds;
    OfferedKnows(cx, b, overlay, done, id, rest, rec);
    var tx := RenewalTx(cx, b, id).value;
    SeedsFor(b, overlay, tx, id);
    var (seeded, s) := SeedAll(overlay, b, SeedIds(tx));
    assert IdempotencyOf(tx).1.idempotentId == 0;
    if s.Done? {
      ReadyHere(cx, b, overlay, seeded, id, rest);
      CollectedHandled(cx, b, seeded, id, b, blockId);
      var r := Handle(cx, tx, seeded, b, blockId, true);
      if r.1.Done? {
        PaidOver(b, seeded, r.0, id, MinFee(cx, b, id).value, Ends(cx, b, id));
        MidwayGoesOn(cx, b, seeded, r.0, done, id, rest);
      }
    } else {
      EndingNeedsRecycle(cx, b, id);
    }
  }

  lemma ReadyHere(cx: Context, b: Accounts, overlay: Accounts, seeded: Accounts, id: Id, rest: seq<Id>)
    requires id in b && id in seeded && id !in overlay && b + seeded == b + overlay && id != ID_FEE && id != ID_RECYCLE && ID_FEE in b
    requires MinFee(cx, b, id).Ok? && BalanceOf(b + overlay, ID_FEE, ID_GENESIS) + FeeOf(cx, b, id) + TotalFees(cx, b, rest) <= INT64_MAX
    ensures Ready(cx, b, seeded, id)
  {
    hide MinFee, TotalFees;
    assert (b + seeded)[id] == (b + overlay)[id];
    if ID_FEE in seeded {
      assert (b + seeded)[ID_FEE] == seeded[ID_FEE];
    }
  }

  /** What a record paid, seen over the committed accounts. */
  lemma PaidOver(b: Accounts, seeded: Accounts, after: Accounts, id: Id, fee: nat, ends: bool)
    requires id in b && id in seeded && seeded[id] == b[id] && id != ID_FEE && id != ID_RECYCLE && ID_FEE in b
    requires OnlyPays(seeded, after, id, fee, ends) && (!ends && fee > 0 ==> ID_FEE in seeded) && (ends ==> ID_RECYCLE in seeded)
    ensures Adds((b + seeded)[ID_FEE], (b + after)[ID_FEE], OnlyNative(if ends then 0 else fee))
    ensures ID_RECYCLE in b ==> Adds((b + seeded)[ID_RECYCLE], (b + after)[ID_RECYCLE], Left(b[id], ends))
  {
  }

  lemma FeeStep(cx: Context, b: Accounts, overlay: Accounts, done: seq<Id>, rest: seq<Id>, rec: Record, blockId: nat, slot: nat)
    requires Offered(cx, b, overlay, done, ID_FEE, rest, rec)
    ensures var (after, s) := ApplyBuffer(cx, b, rec, overlay, blockId, slot);
      (s.Done? <==> Passes(cx, b, done, ID_FEE)) && (s.Done? ==> Midway(cx, b, after, done + [ID_FEE], rest))
  {
    hide Sane, Handle, SeedAll, RenewalTx, Renewable, MinFee, Creatable, Midway, Offered, Due, IdsMatch, Credited, Gained, TotalFees, FeeOf, Adds;
    OfferedKnows(cx, b, overlay, done, ID_FEE, rest, rec);
    var tx := RenewalTx(cx, b, ID_FEE).value;
    SeedsFor(b, overlay, tx, ID_FEE);
    var seeded := SeedAll(overlay, b, SeedIds(tx)).0;
    assert IdempotencyOf(tx).1.idempotentId == 0;
    assert (b + seeded)[ID_FEE] == seeded[ID_FEE] && !Ends(cx, b, ID_FEE);
    FeeRenewalAcceptedIff(cx, b, seeded, Credited(cx, b, done), b, blockId);
    var r := Handle(cx, tx, seeded, b, blockId, true);
    if r.1.Done? {
      SameRecycle(b, seeded, r.0, ID_FEE);
      MidwayGoesOn(cx, b, seeded, r.0, done, ID_FEE, rest);
    }
  }

  lemma SameRecycle(b: Accounts, seeded: Accounts, after: Accounts, id: Id)
    requires id in b && id != ID_RECYCLE && (ID_RECYCLE in seeded <==> ID_RECYCLE in after)
    requires ID_RECYCLE in seeded ==> after[ID_RECYCLE] == seeded[ID_RECYCLE]
    ensures ID_RECYCLE in b ==> Adds((b + seeded)[ID_RECYCLE], (b + after)[ID_RECYCLE], Left(b[id], false))
  {
  }

  lemma RecycleStep(cx: Context, b: Accounts, overlay: Accounts, done: seq<Id>, rest: seq<Id>, rec: Record, blockId: nat, slot: nat)
    requires Offered(cx, b, overlay, done, ID_RECYCLE, rest, rec)
    ensures var (after, s) := ApplyBuffer(cx, b, rec, overlay, blockId, slot);
      (s.Done? <==> Passes(cx, b, done, ID_RECYCLE)) && (s.Done? ==> Midway(cx, b, after, done + [ID_RECYCLE], rest))
  {
    hide Sane, Handle, SeedAll, RenewalTx, Renewable, MinFee, Creatable, Midway, Offered, Due, IdsMatch, Credited, Gained, TotalFees, FeeOf, Ends,
      Adds;
    OfferedKnows(cx, b, overlay, done, ID_RECYCLE, rest, rec);
    assert ID_RECYCLE in b by {
      SaneIsThere(cx, b, ID_RECYCLE);
    }
    var tx := RenewalTx(cx, b, ID_RECYCLE).value;
    SeedsFor(b, overlay, tx, ID_RECYCLE);
    var seeded := SeedAll(overlay, b, SeedIds(tx)).0;
    assert IdempotencyOf(tx).1.idempotentId == 0;
    assert (b + seeded)[ID_RECYCLE] == seeded[ID_RECYCLE];
    assert ID_FEE in seeded ==> (b + seeded)[ID_FEE] == seeded[ID_FEE];
    FeeRoomHere(cx, b, seeded, rest);
    RecycleRecordAcceptedIff(cx, b, seeded, GainedOf(cx, b, done), b, blockId);
    var r := Handle(cx, tx, seeded, b, blockId, true);
    GainedIs(cx, b, done);
    if r.1.Done? {
      FeeOver(cx, b, seeded, r.0);
      MidwayGoesOn(cx, b, seeded, r.0, done, ID_RECYCLE, rest);
    }
  }

  lemma GainedIs(cx: Context, b: Accounts, done: seq<Id>)
    ensures forall t :: GainedOf(cx, b, done)(t) == Gained(cx, b, done, t)
    ensures (forall t :: GainedOf(cx, b, done)(t) == 0) <==> forall t :: Gained(cx, b, done, t) == 0
  {
    hide Gained;
    assert forall t: Id :: GainedOf(cx, b, done)(t) == Gained(cx, b, done, t);
  }

  lemma SaneIsThere(cx: Context, b: Accounts, id: Id)
    requires Sane(cx, b, id)
    ensures id in b
  {
  }

  lemma FeeRoomHere(cx: Context, b: Accounts, seeded: Accounts, rest: seq<Id>)
    requires ID_FEE in b && BalanceOf(b + seeded, ID_FEE, ID_GENESIS) + FeeOf(cx, b, ID_RECYCLE) + TotalFees(cx, b, rest) <= INT64_MAX
    ensures ID_FEE in seeded ==> BalanceOf(seeded, ID_FEE, ID_GENESIS) + FeeOf(cx, b, ID_RECYCLE) <= INT64_MAX
  {
  }

  lemma FeeOver(cx: Context, b: Accounts, seeded: Accounts, after: Accounts)
    requires ID_FEE in b && MinFee(cx, b, ID_RECYCLE).Ok? && (ID_FEE in seeded <==> ID_FEE in after)
    requires !Ends(cx, b, ID_RECYCLE) && FeeOf(cx, b, ID_RECYCLE) > 0 ==> ID_FEE in seeded
    requires ID_FEE in seeded ==>
      Adds(seeded[ID_FEE], after[ID_FEE], OnlyNative(if Ends(cx, b, ID_RECYCLE) then 0 else MinFee(cx, b, ID_RECYCLE).value))
    ensures Adds((b + seeded)[ID_FEE], (b + after)[ID_FEE], OnlyNative(if Ends(cx, b, ID_RECYCLE) then 0 else FeeOf(cx, b, ID_RECYCLE)))
  {
    hide MinFee;
  }

  lemma EndingNeedsRecycle(cx: Context, b: Accounts, id: Id)
    requires Sane(cx, b, id) && Creatable(cx, b, id) && RenewalTx(cx, b, id).Ok? && RenewalTx(cx, b, id).value.TxEndUser? && ID_RECYCLE !in b
    ensures !Renewable(cx, b, id)
  {
    hide Sane, RenewalTx, UserPayload, GenesisPayload, MinFee;
    CreationSucceedsIff(cx, b, id);
  }

  /** The records of due accounts, offered one after another: all are accepted exactly when each passes behind those before it. */
  lemma {:induction false} OverlayAcceptsIff(cx: Context, b: Accounts, overlay: Accounts, done: seq<Id>, rest: seq<Id>, records: seq<Record>,
                                             blockId: nat, slot: nat)
    requires Due(cx, b, done + rest) && IdsMatch(b) && Midway(cx, b, overlay, done, rest) && CollectedFor(cx, b, rest, records)
    ensures OverlayRun(cx, b, overlay, records, blockId, slot).1.Done? <==>
      forall i | 0 <= i < |rest| :: Passes(cx, b, done + rest[..i], rest[i])
    decreases |rest|
  {
    hide Sane, ApplyBuffer, RenewalTx, Passes, MinFee, Midway, IdsMatch, Due;
    if rest != [] {
      var id, later := rest[0], rest[1..];
      assert [id] + later == rest && done + [id] + later == done + rest;
      assert Offered(cx, b, overlay, done, id, later, records[0]);
      if id == ID_FEE {
        FeeStep(cx, b, overlay, done, later, records[0], blockId, slot);
      } else if id == ID_RECYCLE {
        RecycleStep(cx, b, overlay, done, later, records[0], blockId, slot);
      } else {
        OrdinaryStep(cx, b, overlay, done, id, later, records[0], blockId, slot);
      }
      var (next, s) := ApplyBuffer(cx, b, records[0], overlay, blockId, slot);
      assert done + rest[..0] == done;
      if s.Done? {
        OverlayAcceptsIff(cx, b, next, done + [id], later, records[1..], blockId, slot);
        forall i | 0 < i < |rest|
          ensures rest[i] == later[i - 1] && done + rest[..i] == done + [id] + later[..i - 1]
        {
        }
        forall i | 0 <= i < |later|
          ensures later[i] == rest[i + 1] && done + [id] + later[..i] == done + rest[..i + 1]
        {
        }
      }
    }
  }
}
