/** What each transaction handler does to the accounts, as functions. A handler that fails returns the accounts
    as it leaves them. */
module TxHandlers {
  import opened Numbers
  import opened Outcomes
  import opened ChainTypes
  import opened Bank
  import opened LedgerView
  import opened TxFees
  import opened TxIdempotency
  import Ouroboros

  /** What a handler may read: codecs, the ledger so far, the chain configuration and the slot schedule. */
  datatype Context = Context(codec: Codec, ledger: Ledger, config: Option<BlockChainConfig>, schedule: Ouroboros.Schedule)

  function Idempotency(cx: Context, wallet: Id, w: Window, slot: nat, strict: bool): Status {
    ValidateIdempotencyRules(cx.codec, cx.ledger, cx.schedule, cx.config, wallet, w, slot, strict)
  }

  /** The fee check of the strict path. */
  function CheckFee(cx: Context, tx: TypedTx): Status {
    if cx.config.None? then Failed(Internal)
    else
      match MinFeeForTx(cx.codec, cx.config.value, tx)
      case Err(e) => Failed(e)
      case Ok(minimum) => if tx.fee < minimum then Failed(TxFee) else Done
  }

  function CheckWallet(w: Wallet): Status {
    if w.keyType != TK_ED25519 || w.publicKeys == [] || w.minSignatures < 1 then Failed(TxValidation) else Done
  }

  function CheckGenesisWallet(w: Wallet): Status {
    if |w.publicKeys| < 3 || w.minSignatures < 2 then Failed(TxValidation) else Done
  }

  /** The account's wallet is replaced as a whole; the fee goes to the fee account if there is one. */
  function ReplaceAndPay(b: Accounts, id: Id, wallet: Wallet, blockId: nat, fee: u64): (Accounts, Status) {
    var replaced := b[id := Account.Account(id, wallet, blockId)];
    if fee > 0 && ID_FEE in replaced then
      var (paid, s) := Deposit(replaced, ID_FEE, ID_GENESIS, ToInt64(fee));
      (paid, if s.Failed? then Failed(TxTransfer) else Done)
    else (replaced, Done)
  }

  // ----- transfers -----

  function TransferStrict(cx: Context, tx: TypedTx, b: Accounts): (Accounts, Status)
    requires tx.TxDefault?
  {
    var feeCheck := CheckFee(cx, tx);
    if feeCheck.Failed? then (b, feeCheck)
    else
      var (moved, s) := Transfer(b, tx.fromWalletId, tx.toWalletId, tx.tokenId, tx.amount, tx.fee);
      (moved, if s.Failed? then Failed(TxTransfer) else Done)
  }

  /** The part of a transfer that leaves a known sender for an unknown receiver. */
  function WithdrawLoose(tx: TypedTx, b: Accounts): (Accounts, Status)
    requires tx.TxDefault?
  {
    if tx.tokenId == ID_GENESIS then
      Withdraw(b, tx.fromWalletId, ID_GENESIS, ToInt64(tx.amount) + ToInt64(tx.fee))
    else
      var (paid, s) := Withdraw(b, tx.fromWalletId, tx.tokenId, ToInt64(tx.amount));
      if s.Failed? || tx.fee == 0 then (paid, s)
      else Withdraw(paid, tx.fromWalletId, ID_GENESIS, ToInt64(tx.fee))
  }

  function TransferLoose(tx: TypedTx, b: Accounts): (Accounts, Status)
    requires tx.TxDefault?
  {
    if tx.fromWalletId in b && tx.toWalletId in b then
      var (moved, s) := Transfer(b, tx.fromWalletId, tx.toWalletId, tx.tokenId, tx.amount, tx.fee);
      (moved, if s.Failed? then Failed(TxTransfer) else Done)
    else if tx.fromWalletId in b then
      var (paid, s) := WithdrawLoose(tx, b);
      if s.Failed? then (paid, Failed(TxTransfer))
      else if tx.fee > 0 && ID_FEE in paid then
        var (credited, t) := Deposit(paid, ID_FEE, ID_GENESIS, ToInt64(tx.fee));
        (credited, if t.Failed? then Failed(TxTransfer) else Done)
      else (paid, Done)
    else if tx.toWalletId in b then
      var (credited, s) := Deposit(b, tx.toWalletId, tx.tokenId, ToInt64(tx.amount));
      (credited, if s.Failed? then Failed(TxTransfer) else Done)
    else (b, Done)
  }

  // ----- new accounts -----

  /** The checks before a new account is added. `existing` holds accounts known outside `b`. */
  function CheckNewUser(cx: Context, tx: TypedTx, b: Accounts, existing: Accounts, strict: bool): Status
    requires tx.TxNewUser?
  {
    var feeCheck := if strict then CheckFee(cx, tx) else Done;
    if feeCheck.Failed? then feeCheck
    else if tx.toWalletId in b || tx.toWalletId in existing then Failed(AccountExists)
    else if VerifySpendingPower(b, tx.fromWalletId, ID_GENESIS, tx.amount, tx.fee).Failed? then Failed(AccountBalance)
    else if tx.fromWalletId != ID_GENESIS && tx.toWalletId < ID_FIRST_USER then Failed(TxValidation)
    else
      match cx.codec.userAccountOf(tx.meta)
      case None => Failed(Deserialize)
      case Some(account) =>
        if CheckWallet(account.wallet).Failed? then CheckWallet(account.wallet)
        else if |account.wallet.balances| != 1 then Failed(TxValidation)
        else if ID_GENESIS !in account.wallet.balances then Failed(TxValidation)
        else if Wrap(account.wallet.balances[ID_GENESIS]) != tx.amount then Failed(TxValidation)
        else Done
  }

  function NewUser(cx: Context, tx: TypedTx, b: Accounts, existing: Accounts, blockId: nat, strict: bool): (Accounts, Status)
    requires tx.TxNewUser?
  {
    var check := CheckNewUser(cx, tx, b, existing, strict);
    if check.Failed? then (b, check)
    else
      var wallet := cx.codec.userAccountOf(tx.meta).value.wallet.(balances := map[]);
      var added := b[tx.toWalletId := Account.Account(tx.toWalletId, wallet, blockId)];
      var (moved, s) := Transfer(added, tx.fromWalletId, tx.toWalletId, ID_GENESIS, tx.amount, tx.fee);
      (moved, if s.Failed? then Failed(TxTransfer) else Done)
  }

  // ----- account updates and renewals -----

  /** A user update or a user renewal: the payload's wallet must hold what the account holds minus the fee. */
  function Upsert(cx: Context, id: Id, fee: u64, meta: Bytes, b: Accounts, blockId: nat, strict: bool): (Accounts, Status) {
    var feeCheck := if strict then CheckFee(cx, TxUserUpdate(id, fee, meta, Window(0, 0, 0))) else Done;
    if feeCheck.Failed? then (b, feeCheck)
    else
      match cx.codec.userAccountOf(meta)
      case None => (b, Failed(Deserialize))
      case Some(account) =>
        if CheckWallet(account.wallet).Failed? then (b, CheckWallet(account.wallet))
        else if id !in b && strict then (b, Failed(AccountNotFound))
        else if id in b && VerifyBalance(b, id, 0, fee, account.wallet.balances).Failed? then (b, Failed(TxValidation))
        else ReplaceAndPay(b, id, account.wallet, blockId, fee)
  }

  function GenesisRenewal(cx: Context, tx: TypedTx, b: Accounts, blockId: nat, strict: bool): (Accounts, Status)
    requires tx.TxRenewal?
  {
    match cx.codec.genesisMetaOf(tx.meta)
    case None => (b, Failed(Deserialize))
    case Some(gm) =>
      var feeCheck := if strict then CheckFee(cx, tx) else Done;
      if CheckGenesisWallet(gm.genesis.wallet).Failed? then (b, CheckGenesisWallet(gm.genesis.wallet))
      else if feeCheck.Failed? then (b, feeCheck)
      else if ID_GENESIS !in b then (b, if strict then Failed(AccountNotFound) else Done)
      else if VerifyBalance(b, ID_GENESIS, 0, tx.fee, gm.genesis.wallet.balances).Failed? then (b, Failed(TxValidation))
      else ReplaceAndPay(b, ID_GENESIS, gm.genesis.wallet, blockId, tx.fee)
  }

  function EndUser(cx: Context, tx: TypedTx, b: Accounts): (Accounts, Status)
    requires tx.TxEndUser?
  {
    if tx.fee != 0 then (b, Failed(TxValidation))
    else if cx.config.None? then (b, Failed(Internal))
    else if tx.walletId !in b then (b, Failed(AccountNotFound))
    else
      match MinFeeForAccount(cx.codec, cx.ledger, cx.config.value, b, tx.walletId)
      case Err(e) => (b, Failed(e))
      case Ok(minimum) =>
        if BalanceOf(b, tx.walletId, ID_GENESIS) >= minimum then (b, Failed(TxValidation))
        else
          var (closed, s) := WriteOff(b, tx.walletId);
          (closed, if s.Failed? then Failed(InternalBuffer) else Done)
  }

  /** What a strict configuration update may not change. */
  function CheckConfigChange(current: Option<BlockChainConfig>, next: BlockChainConfig): Status {
    if current.None? then Failed(StateInit)
    else if next.genesisTime != current.value.genesisTime then Failed(TxValidation)
    else if next.slotDuration > current.value.slotDuration then Failed(TxValidation)
    else if next.slotsPerEpoch < current.value.slotsPerEpoch then Failed(TxValidation)
    else Done
  }

  function CheckConfigUpdate(cx: Context, tx: TypedTx, b: Accounts, strict: bool): Status
    requires tx.TxConfig?
  {
    if tx.fee != 0 then Failed(TxValidation)
    else
      match cx.codec.genesisMetaOf(tx.meta)
      case None => Failed(Deserialize)
      case Some(gm) =>
        var change := if strict then CheckConfigChange(cx.config, gm.config) else Done;
        if CheckGenesisWallet(gm.genesis.wallet).Failed? then CheckGenesisWallet(gm.genesis.wallet)
        else if change.Failed? then change
        else if VerifyBalance(b, ID_GENESIS, 0, 0, gm.genesis.wallet.balances).Failed? then Failed(TxValidation)
        else Done
  }

  function ConfigUpdate(cx: Context, tx: TypedTx, b: Accounts, blockId: nat, strict: bool): (Accounts, Status)
    requires tx.TxConfig?
  {
    var check := CheckConfigUpdate(cx, tx, b, strict);
    if check.Failed? then (b, check)
    else
      var wallet := cx.codec.genesisMetaOf(tx.meta).value.genesis.wallet;
      (b[ID_GENESIS := Account.Account(ID_GENESIS, wallet, blockId)], Done)
  }

  // ----- the committed-chain path -----

  /** The part of the chain state a record may change. */
  datatype World = World(accounts: Accounts, config: Option<BlockChainConfig>, consensus: Ouroboros.Consensus)

  function ContextOf(codec: Codec, ledger: Ledger, w: World): Context {
    Context(codec, ledger, w.config, w.consensus.schedule)
  }

  /** The genesis transaction commits the configuration before it compares genesis times. */
  function GenesisInit(codec: Codec, w: World, tx: TypedTx): (World, Status)
    requires tx.TxGenesis?
  {
    if tx.fee != 0 then (w, Failed(TxValidation))
    else
      match codec.genesisMetaOf(tx.meta)
      case None => (w, Failed(Deserialize))
      case Some(gm) =>
        var configured := w.(config := Some(gm.config));
        var genesisTime := w.consensus.schedule.genesisTime;
        if genesisTime != 0 && genesisTime != gm.config.genesisTime then (configured, Failed(TxValidation))
        else
          var schedule := Ouroboros.Schedule(gm.config.genesisTime, gm.config.slotDuration, gm.config.slotsPerEpoch);
          var scheduled := configured.(consensus := Ouroboros.Consensus(schedule, map[], None));
          var (added, s) := Add(w.accounts, Account.Account(ID_GENESIS, gm.genesis.wallet, 0));
          (scheduled.(accounts := added), if s.Failed? then Failed(InternalBuffer) else Done)
  }

  /** The wallet and window a record is checked for idempotency with; renewals and end-user records have none. */
  function IdempotencyOf(tx: TypedTx): (Id, Window) {
    match tx
    case TxDefault(_, from, _, _, _, _, w) => (from, w)
    case TxNewUser(from, _, _, _, _, w) => (from, w)
    case TxConfig(_, _, w) => (ID_GENESIS, w)
    case TxUserUpdate(id, _, _, w) => (id, w)
    case _ => (ID_GENESIS, Window(0, 0, 0))
  }

  /** A record's change to the accounts `b`. `existing` holds accounts known outside `b`. */
  function Handle(cx: Context, tx: TypedTx, b: Accounts, existing: Accounts, blockId: nat, strict: bool): (Accounts, Status)
    requires !tx.TxGenesis?
  {
    match tx
    case TxDefault(_, _, _, _, _, _, _) => if strict then TransferStrict(cx, tx, b) else TransferLoose(tx, b)
    case TxNewUser(_, _, _, _, _, _) => NewUser(cx, tx, b, existing, blockId, strict)
    case TxConfig(_, _, _) => ConfigUpdate(cx, tx, b, blockId, strict)
    case TxUserUpdate(id, fee, meta, _) => Upsert(cx, id, fee, meta, b, blockId, strict)
    case TxRenewal(id, fee, meta) =>
      if id == ID_GENESIS then GenesisRenewal(cx, tx, b, blockId, strict)
      else Upsert(cx, id, fee, meta, b, blockId, strict)
    case TxEndUser(_, _, _) => EndUser(cx, tx, b)
  }

  /** The committed path of a record: its idempotency rules, then its handler. */
  function ApplyAccounts(cx: Context, tx: TypedTx, b: Accounts, blockId: nat, slot: nat, strict: bool): (Accounts, Status)
    requires !tx.TxGenesis?
  {
    var (wallet, w) := IdempotencyOf(tx);
    var idem := Idempotency(cx, wallet, w, slot, strict);
    if idem.Failed? then (b, idem) else Handle(cx, tx, b, map[], blockId, strict)
  }

  /** One record of a block: decode it and run its handler. */
  function ApplyBlock(codec: Codec, ledger: Ledger, w: World, rec: Record, blockId: nat, slot: nat, slotLeader: Id,
                      strict: bool): (World, Status) {
    match codec.decode(rec)
    case None => (w, Failed(InvalidArgument))
    case Some(tx) =>
      if tx.TxGenesis? then
        if blockId != 0 || slotLeader != 0 then (w, Failed(TxType)) else GenesisInit(codec, w, tx)
      else
        var (b, s) := ApplyAccounts(ContextOf(codec, ledger, w), tx, w.accounts, blockId, slot, strict);
        var applied := w.(accounts := b);
        if tx.TxConfig? && s.Done? then (applied.(config := Some(codec.genesisMetaOf(tx.meta).value.config)), s)
        else (applied, s)
  }

  // ----- the mempool path -----

  /** Copies accounts into the overlay, one after another. */
  function SeedAll(b: Accounts, committed: Accounts, ids: seq<Id>): (Accounts, Status)
    decreases |ids|
  {
    if ids == [] then (b, Done)
    else
      var (seeded, s) := SeedFromCommitted(b, committed, ids[0]);
      if s.Failed? then (seeded, s) else SeedAll(seeded, committed, ids[1..])
  }

  /** The accounts a handler copies into the overlay before it runs, in the source's order. */
  function SeedIds(tx: TypedTx): seq<Id> {
    match tx
    case TxDefault(_, from, to, _, fee, _, _) => [from, to] + (if fee > 0 then [ID_FEE] else [])
    case TxGenesis(_, _) => []
    case TxNewUser(from, _, _, fee, _, _) => (if fee > 0 then [ID_FEE] else []) + [from]
    case TxConfig(_, _, _) => [ID_GENESIS]
    case TxUserUpdate(id, fee, _, _) => [id] + (if fee > 0 && id != ID_FEE then [ID_FEE] else [])
    case TxRenewal(id, fee, _) => [id] + (if fee > 0 && id != ID_FEE then [ID_FEE] else [])
    case TxEndUser(id, _, _) => [id, ID_RECYCLE]
  }

  /** One record against the overlay: idempotency, seeding, then the strict handler. */
  function ApplyBuffer(cx: Context, committed: Accounts, rec: Record, overlay: Accounts, blockId: nat, slot: nat): (Accounts, Status) {
    match cx.codec.decode(rec)
    case None => (overlay, Failed(InvalidArgument))
    case Some(tx) =>
      if tx.TxGenesis? then (overlay, Failed(TxType))
      else
        var (wallet, w) := IdempotencyOf(tx);
        var idem := Idempotency(cx, wallet, w, slot, true);
        if idem.Failed? then (overlay, idem)
        else
          var (seeded, s) := SeedAll(overlay, committed, SeedIds(tx));
          if s.Failed? then (seeded, s) else Handle(cx, tx, seeded, committed, blockId, true)
  }
}
