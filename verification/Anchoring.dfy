/** Every account's block id names a ledger block that holds the record that last set the account: what renewals and
    their fees are computed from. Every accepted block keeps this, with one exception that is stated exactly: a user update
    of the genesis account in a block that carries no genesis metadata, or one that leaves it with too few keys. */
module Anchoring {
  import opened Numbers
  import opened Outcomes
  import opened ChainTypes
  import opened Bank
  import opened LedgerView
  import opened TxFees
  import opened TxHandlers
  import opened BlockValidation
  import opened ChainSpec
  import opened Runs
  import Ouroboros

  /** The record carries the account's metadata. */
  predicate Sets(codec: Codec, rec: Record, id: Id, blockIndex: nat) {
    if id == ID_GENESIS then GenesisMetaOf(codec, rec, blockIndex).Some? else UserMetaOf(codec, rec, id).Some?
  }

  /** The metadata a record carries can be read. */
  ghost predicate Decodable(codec: Codec, rec: Record, blockIndex: nat) {
    && (GenesisMetaOf(codec, rec, blockIndex).Some? ==>
         codec.genesisMetaOf(GenesisMetaOf(codec, rec, blockIndex).value).Some?)
    && forall id :: UserMetaOf(codec, rec, id).Some? ==> codec.userAccountOf(UserMetaOf(codec, rec, id).value).Some?
  }

  /** The block holds readable metadata of the account. */
  predicate HoldsMeta(codec: Codec, block: Block, id: Id) {
    if id == ID_GENESIS then GenesisMetaFromBlock(codec, block).Ok? else UserAccountFromBlock(codec, block, id).Ok?
  }

  /** The wallet's keys are such as the handlers accept. */
  predicate WalletOk(id: Id, w: Wallet) {
    if id == ID_GENESIS then CheckGenesisWallet(w).Done? else CheckWallet(w).Done?
  }

  predicate Anchored(codec: Codec, l: Ledger, b: Accounts) {
    forall id | id in b :: l.Has(b[id].blockId) && HoldsMeta(codec, l.At(b[id].blockId), id) && WalletOk(id, b[id].wallet)
  }

  /** A user update of the genesis account. It sets the account, but its metadata is that of a user account. */
  predicate UpdatesGenesis(codec: Codec, rec: Record) {
    codec.decode(rec).Some? && codec.decode(rec).value.TxUserUpdate? && codec.decode(rec).value.walletId == ID_GENESIS
  }

  predicate BlockUpdatesGenesis(codec: Codec, block: Block) {
    exists j :: 0 <= j < |block.records| && UpdatesGenesis(codec, block.records[j])
  }

  predicate BlockHasGenesisMeta(codec: Codec, block: Block) {
    exists j :: 0 <= j < |block.records| && GenesisMetaOf(codec, block.records[j], block.index).Some?
  }

  /** The last of the first `i` records that sets the genesis account gives it fewer keys or signatures than its renewal
      must have. */
  predicate LeavesGenesisWeak(codec: Codec, block: Block, i: nat)
    requires i <= |block.records|
  {
    i > 0 &&
    match codec.decode(block.records[i - 1])
    case Some(TxUserUpdate(id, _, meta, _)) =>
      if id == ID_GENESIS then codec.userAccountOf(meta).None? || CheckGenesisWallet(codec.userAccountOf(meta).value.wallet).Failed?
      else LeavesGenesisWeak(codec, block, i - 1)
    case Some(TxGenesis(_, meta)) =>
      codec.genesisMetaOf(meta).None? || CheckGenesisWallet(codec.genesisMetaOf(meta).value.genesis.wallet).Failed?
    case Some(TxConfig(_, _, _)) => false
    case Some(TxRenewal(id, _, _)) => id != ID_GENESIS && LeavesGenesisWeak(codec, block, i - 1)
    case _ => LeavesGenesisWeak(codec, block, i - 1)
  }

  /** User updates of the genesis account come together with genesis metadata and leave it strong enough. */
  predicate BlockHarmless(codec: Codec, block: Block) {
    && (BlockUpdatesGenesis(codec, block) ==> BlockHasGenesisMeta(codec, block))
    && !LeavesGenesisWeak(codec, block, |block.records|)
  }

  // ----- one record -----

  /** Apart from balances, the account is as it was. */
  predicate SameSetting(a: Account, b: Account) {
    && a.blockId == b.blockId && a.wallet.publicKeys == b.wallet.publicKeys
    && a.wallet.minSignatures == b.wallet.minSignatures && a.wallet.keyType == b.wallet.keyType
  }

  function SetBy(tx: TypedTx): set<Id> {
    match tx
    case TxNewUser(_, to, _, _, _, _) => {to}
    case TxUserUpdate(id, _, _, _) => {id}
    case TxRenewal(id, _, _) => {id}
    case TxConfig(_, _, _) => {ID_GENESIS}
    case _ => {}
  }

  /** Whether the record gives the account it sets a wallet with the keys the account must have. */
  predicate SetsWell(codec: Codec, tx: TypedTx) {
    tx.TxUserUpdate? && tx.walletId == ID_GENESIS && codec.userAccountOf(tx.meta).Some? ==>
      CheckGenesisWallet(codec.userAccountOf(tx.meta).value.wallet).Done?
  }

  /** Every account is kept as it was set, or set by this record in this block. */
  ghost predicate KeptOrSet(before: Accounts, after: Accounts, ids: set<Id>, blockId: nat, well: bool) {
    forall id | id in after ::
      if id in ids then after[id].blockId == blockId && (WalletOk(id, after[id].wallet) <==> well)
      else id in before && SameSetting(after[id], before[id])
  }

  lemma SetBalanceKeeps(b: Accounts, id: Id, token: Id, v: int)
    requires id in b
    ensures KeptOrSet(b, SetBalance(b, id, token, v), {}, 0, true) && SetBalance(b, id, token, v).Keys == b.Keys
  {
  }

  lemma KeepingComposes(b: Accounts, mid: Accounts, after: Accounts, ids: set<Id>, blockId: nat, well: bool)
    requires KeptOrSet(b, mid, ids, blockId, well) && KeptOrSet(mid, after, {}, 0, true)
    ensures KeptOrSet(b, after, ids, blockId, well)
  {
    forall id | id in after
      ensures if id in ids then after[id].blockId == blockId && (WalletOk(id, after[id].wallet) <==> well)
              else id in b && SameSetting(after[id], b[id])
    {
      assert id in mid && SameSetting(after[id], mid[id]);
    }
  }

  lemma TransferKeepsSettings(b: Accounts, from: Id, to: Id, token: Id, amount: u64, fee: u64)
    ensures KeptOrSet(b, Transfer(b, from, to, token, amount, fee).0, {}, 0, true)
    ensures Transfer(b, from, to, token, amount, fee).0.Keys == b.Keys
  {
    hide VerifySpendingPower, BalanceOf, SetBalance, KeptOrSet;
    KeepsItself(b);
    if from in b && to in b {
      MoveKeepsSettings(b, from, to, token, amount);
      var moved := MoveAmount(b, from, to, token, amount);
      if fee > 0 {
        var left := BalanceOf(b, from, ID_GENESIS) - (if token == ID_GENESIS then amount else 0) - fee;
        SetBalanceKeeps(moved, from, ID_GENESIS, left);
        var charged := ChargeFee(b, from, to, token, amount, fee);
        KeepingComposes(b, moved, charged, {}, 0, true);
        if ID_FEE in charged {
          var v := BalanceOf(charged, ID_FEE, ID_GENESIS) + fee;
          SetBalanceKeeps(charged, ID_FEE, ID_GENESIS, v);
          KeepingComposes(b, charged, SetBalance(charged, ID_FEE, ID_GENESIS, v), {}, 0, true);
        }
      }
    }
  }

  lemma KeepsItself(b: Accounts)
    ensures KeptOrSet(b, b, {}, 0, true)
  {
  }

  lemma MoveKeepsSettings(b: Accounts, from: Id, to: Id, token: Id, amount: int)
    requires from in b && to in b
    ensures KeptOrSet(b, MoveAmount(b, from, to, token, amount), {}, 0, true)
    ensures MoveAmount(b, from, to, token, amount).Keys == b.Keys
  {
    hide BalanceOf, SetBalance, KeptOrSet;
    var mid := SetBalance(b, from, token, BalanceOf(b, from, token) - amount);
    SetBalanceKeeps(b, from, token, BalanceOf(b, from, token) - amount);
    SetBalanceKeeps(mid, to, token, BalanceOf(b, to, token) + amount);
    KeepingComposes(b, mid, MoveAmount(b, from, to, token, amount), {}, 0, true);
  }

  lemma ReplaceSets(b: Accounts, id: Id, wallet: Wallet, blockId: nat, fee: u64, well: bool)
    requires id in b && (WalletOk(id, wallet) <==> well)
    ensures KeptOrSet(b, ReplaceAndPay(b, id, wallet, blockId, fee).0, {id}, blockId, well)
    ensures ReplaceAndPay(b, id, wallet, blockId, fee).0.Keys == b.Keys
  {
  }

  lemma NewUserSets(cx: Context, tx: TypedTx, b: Accounts, existing: Accounts, blockId: nat)
    requires tx.TxNewUser? && NewUser(cx, tx, b, existing, blockId, true).1.Done?
    ensures KeptOrSet(b, NewUser(cx, tx, b, existing, blockId, true).0, {tx.toWalletId}, blockId, true)
    ensures NewUser(cx, tx, b, existing, blockId, true).0.Keys == b.Keys + {tx.toWalletId}
    ensures tx.toWalletId != ID_GENESIS && cx.codec.userAccountOf(tx.meta).Some?
  {
    hide CheckFee, VerifySpendingPower, Transfer;
    var wallet := cx.codec.userAccountOf(tx.meta).value.wallet.(balances := map[]);
    var added := b[tx.toWalletId := Account.Account(tx.toWalletId, wallet, blockId)];
    TransferKeepsSettings(added, tx.fromWalletId, tx.toWalletId, ID_GENESIS, tx.amount, tx.fee);
    assert KeptOrSet(b, added, {tx.toWalletId}, blockId, true);
    KeepingComposes(b, added, NewUser(cx, tx, b, existing, blockId, true).0, {tx.toWalletId}, blockId, true);
  }

  lemma EndUserKeepsSettings(cx: Context, tx: TypedTx, b: Accounts)
    requires tx.TxEndUser?
    ensures KeptOrSet(b, EndUser(cx, tx, b).0, {}, 0, true)
  {
    hide MinFeeForAccount, Absorb;
  }

  /** An accepted record's change to the accounts, and that the metadata it carries can be read. The genesis account is
      never created anew. */
  lemma HandleSets(cx: Context, tx: TypedTx, b: Accounts, blockId: nat)
    requires !tx.TxGenesis? && Handle(cx, tx, b, map[], blockId, true).1.Done?
    ensures KeptOrSet(b, Handle(cx, tx, b, map[], blockId, true).0, SetBy(tx), blockId, SetsWell(cx.codec, tx))
    ensures ID_GENESIS in Handle(cx, tx, b, map[], blockId, true).0 ==> ID_GENESIS in b
    ensures tx.TxNewUser? ==> tx.toWalletId != ID_GENESIS
    ensures tx.TxNewUser? || tx.TxUserUpdate? || (tx.TxRenewal? && tx.walletId != ID_GENESIS) ==>
      cx.codec.userAccountOf(tx.meta).Some?
    ensures tx.TxConfig? || (tx.TxRenewal? && tx.walletId == ID_GENESIS) ==> cx.codec.genesisMetaOf(tx.meta).Some?
  {
    hide CheckFee, VerifyBalance, Transfer, NewUser, ReplaceAndPay, EndUser, CheckConfigChange;
    match tx {
      case TxDefault(token, from, to, amount, fee, _, _) => TransferKeepsSettings(b, from, to, token, amount, fee);
      case TxNewUser(_, _, _, _, _, _) => NewUserSets(cx, tx, b, map[], blockId);
      case TxConfig(_, _, _) =>
      case TxUserUpdate(id, fee, meta, _) =>
        ReplaceSets(b, id, cx.codec.userAccountOf(meta).value.wallet, blockId, fee, SetsWell(cx.codec, tx));
      case TxRenewal(id, fee, meta) =>
        if id == ID_GENESIS {
          ReplaceSets(b, id, cx.codec.genesisMetaOf(meta).value.genesis.wallet, blockId, fee, true);
        } else {
          ReplaceSets(b, id, cx.codec.userAccountOf(meta).value.wallet, blockId, fee, true);
        }
      case TxEndUser(_, _, _) => EndUserKeepsSettings(cx, tx, b);
    }
  }

  lemma RecordSets(codec: Codec, l: Ledger, w: World, rec: Record, block: Block)
    requires ProcessRecord(codec, l, w, rec, block, true).1.Done?
    requires block.index != 0 || (codec.decode(rec).Some? && !codec.decode(rec).value.TxGenesis?)
    ensures codec.decode(rec).Some? && !codec.decode(rec).value.TxGenesis? && Decodable(codec, rec, block.index)
    ensures var tx := codec.decode(rec).value; var after := ProcessRecord(codec, l, w, rec, block, true).0.accounts;
      && KeptOrSet(w.accounts, after, SetBy(tx), block.index, SetsWell(codec, tx))
      && (ID_GENESIS in after ==> ID_GENESIS in w.accounts)
    ensures forall id | id in SetBy(codec.decode(rec).value) ::
      Sets(codec, rec, id, block.index) || (id == ID_GENESIS && UpdatesGenesis(codec, rec))
  {
    hide Handle, Idempotency, ValidateTxSignatures, KeptOrSet, SetsWell;
    var tx := codec.decode(rec).value;
    HandleSets(ContextOf(codec, l, w), tx, w.accounts, block.index);
  }

  // ----- one block -----

  /** Set by one of the first `i` records of the block. */
  ghost predicate SetAmong(codec: Codec, block: Block, i: nat, id: Id)
    requires i <= |block.records|
  {
    exists j :: 0 <= j < i && Sets(codec, block.records[j], id, block.index)
  }

  ghost predicate UpdatedAmong(codec: Codec, block: Block, i: nat)
    requires i <= |block.records|
  {
    exists j :: 0 <= j < i && UpdatesGenesis(codec, block.records[j])
  }

  /** Where the account is anchored while the block is processed: in the ledger, or in a record of this block so far. A user
      update of the genesis account in this block leaves only the block. */
  ghost predicate AnchoredBy(codec: Codec, l: Ledger, b: Accounts, block: Block, i: nat, id: Id)
    requires i <= |block.records| && id in b
  {
    if id == ID_GENESIS && UpdatedAmong(codec, block, i) then b[id].blockId == block.index
    else
      || (l.Has(b[id].blockId) && HoldsMeta(codec, l.At(b[id].blockId), id))
      || (b[id].blockId == block.index && SetAmong(codec, block, i, id))
  }

  ghost predicate AnchoredIn(codec: Codec, l: Ledger, b: Accounts, block: Block, i: nat)
    requires i <= |block.records|
  {
    && (forall id | id in b :: AnchoredBy(codec, l, b, block, i, id))
    && (forall id | id in b ::
         WalletOk(id, b[id].wallet) <==> !(id == ID_GENESIS && LeavesGenesisWeak(codec, block, i)))
    && (forall j | 0 <= j < i :: Decodable(codec, block.records[j], block.index))
  }

  lemma SettingKeepsWalletOk(id: Id, a: Account, b: Account)
    requires SameSetting(a, b)
    ensures WalletOk(id, a.wallet) <==> WalletOk(id, b.wallet)
  {
  }

  lemma WeaknessStep(codec: Codec, block: Block, i: nat)
    requires i < |block.records| && codec.decode(block.records[i]).Some? && !codec.decode(block.records[i]).value.TxGenesis?
    requires codec.decode(block.records[i]).value.TxUserUpdate? ==>
      codec.userAccountOf(codec.decode(block.records[i]).value.meta).Some?
    requires codec.decode(block.records[i]).value.TxNewUser? ==> codec.decode(block.records[i]).value.toWalletId != ID_GENESIS
    ensures var tx := codec.decode(block.records[i]).value;
      LeavesGenesisWeak(codec, block, i + 1) <==>
      (if ID_GENESIS in SetBy(tx) then !SetsWell(codec, tx) else LeavesGenesisWeak(codec, block, i))
  {
    hide CheckGenesisWallet;
  }

  lemma WalletStep(codec: Codec, l: Ledger, w: World, block: Block, i: nat, id: Id)
    requires i < |block.records| && AnchoredIn(codec, l, w.accounts, block, i)
    requires ProcessRecord(codec, l, w, block.records[i], block, true).1.Done?
    requires block.index != 0 || (codec.decode(block.records[i]).Some? && !codec.decode(block.records[i]).value.TxGenesis?)
    requires id in ProcessRecord(codec, l, w, block.records[i], block, true).0.accounts
    ensures WalletOk(id, ProcessRecord(codec, l, w, block.records[i], block, true).0.accounts[id].wallet)
         <==> !(id == ID_GENESIS && LeavesGenesisWeak(codec, block, i + 1))
  {
    hide ProcessRecord, Decodable, HoldsMeta, Sets, WalletOk, AnchoredBy, LeavesGenesisWeak, UpdatesGenesis, CheckGenesisWallet;
    var rec := block.records[i];
    RecordSets(codec, l, w, rec, block);
    RecordCarries(codec, l, w, rec, block);
    WeaknessStep(codec, block, i);
    var after := ProcessRecord(codec, l, w, rec, block, true).0.accounts;
    if id !in SetBy(codec.decode(rec).value) {
      SettingKeepsWalletOk(id, after[id], w.accounts[id]);
    }
  }

  lemma RecordCarries(codec: Codec, l: Ledger, w: World, rec: Record, block: Block)
    requires ProcessRecord(codec, l, w, rec, block, true).1.Done?
    requires block.index != 0 || (codec.decode(rec).Some? && !codec.decode(rec).value.TxGenesis?)
    ensures codec.decode(rec).Some?
    ensures codec.decode(rec).value.TxUserUpdate? ==> codec.userAccountOf(codec.decode(rec).value.meta).Some?
    ensures codec.decode(rec).value.TxNewUser? ==> codec.decode(rec).value.toWalletId != ID_GENESIS
  {
    hide Handle, Idempotency, ValidateTxSignatures, KeptOrSet, SetsWell;
    HandleSets(ContextOf(codec, l, w), codec.decode(rec).value, w.accounts, block.index);
  }

  lemma AnchorStep(codec: Codec, l: Ledger, w: World, block: Block, i: nat, id: Id)
    requires i < |block.records| && AnchoredIn(codec, l, w.accounts, block, i)
    requires ProcessRecord(codec, l, w, block.records[i], block, true).1.Done?
    requires block.index != 0 || (codec.decode(block.records[i]).Some? && !codec.decode(block.records[i]).value.TxGenesis?)
    requires id in ProcessRecord(codec, l, w, block.records[i], block, true).0.accounts
    ensures AnchoredBy(codec, l, ProcessRecord(codec, l, w, block.records[i], block, true).0.accounts, block, i + 1, id)
  {
    hide ProcessRecord, Decodable, HoldsMeta, Sets, WalletOk, UpdatesGenesis, LeavesGenesisWeak, SetsWell;
    var rec := block.records[i];
    RecordSets(codec, l, w, rec, block);
    var b, after := w.accounts, ProcessRecord(codec, l, w, rec, block, true).0.accounts;
    UpdatesAreSets(codec, rec);
    if id in SetBy(codec.decode(rec).value) {
      assert Sets(codec, rec, id, block.index) ==> SetAmong(codec, block, i + 1, id);
      assert UpdatesGenesis(codec, rec) ==> UpdatedAmong(codec, block, i + 1);
    } else {
      assert AnchoredBy(codec, l, b, block, i, id);
    }
  }

  lemma UpdatesAreSets(codec: Codec, rec: Record)
    ensures UpdatesGenesis(codec, rec) ==> SetBy(codec.decode(rec).value) == {ID_GENESIS}
  {
  }

  lemma StepKeepsAnchors(codec: Codec, l: Ledger, w: World, block: Block, i: nat)
    requires i < |block.records| && AnchoredIn(codec, l, w.accounts, block, i)
    requires ProcessRecord(codec, l, w, block.records[i], block, true).1.Done?
    requires block.index != 0 || (codec.decode(block.records[i]).Some? && !codec.decode(block.records[i]).value.TxGenesis?)
    ensures AnchoredIn(codec, l, ProcessRecord(codec, l, w, block.records[i], block, true).0.accounts, block, i + 1)
  {
    hide ProcessRecord, Decodable, WalletOk, AnchoredBy, LeavesGenesisWeak;
    RecordSets(codec, l, w, block.records[i], block);
    var after := ProcessRecord(codec, l, w, block.records[i], block, true).0.accounts;
    forall id | id in after
      ensures AnchoredBy(codec, l, after, block, i + 1, id)
      ensures WalletOk(id, after[id].wallet) <==> !(id == ID_GENESIS && LeavesGenesisWeak(codec, block, i + 1))
    {
      AnchorStep(codec, l, w, block, i, id);
      WalletStep(codec, l, w, block, i, id);
    }
  }

  lemma {:induction false} RecordsKeepAnchors(codec: Codec, l: Ledger, w: World, block: Block, i: nat)
    requires i <= |block.records| && AnchoredIn(codec, l, w.accounts, block, i)
    requires block.index != 0 || forall j | i <= j < |block.records| ::
      codec.decode(block.records[j]).Some? && !codec.decode(block.records[j]).value.TxGenesis?
    requires ProcessRecords(codec, l, w, block, i, true).1.Done?
    ensures AnchoredIn(codec, l, ProcessRecords(codec, l, w, block, i, true).0.accounts, block, |block.records|)
    decreases |block.records| - i
  {
    hide ProcessRecord, AnchoredIn;
    if i < |block.records| {
      StepKeepsAnchors(codec, l, w, block, i);
      RecordsKeepAnchors(codec, l, ProcessRecord(codec, l, w, block.records[i], block, true).0, block, i + 1);
    }
  }

  /** A block that sets the account, with readable metadata throughout, holds the account's metadata. */
  lemma SetBlockHoldsMeta(codec: Codec, block: Block, id: Id)
    requires SetAmong(codec, block, |block.records|, id)
    requires forall j | 0 <= j < |block.records| :: Decodable(codec, block.records[j], block.index)
    ensures HoldsMeta(codec, block, id)
  {
    hide UserMetaOf, GenesisMetaOf;
    var j :| 0 <= j < |block.records| && Sets(codec, block.records[j], id, block.index);
    if id == ID_GENESIS {
      var metas := GenesisMetas(codec, block);
      assert metas[j] in metas;
      var meta := LastSome(metas);
      var k :| 0 <= k < |metas| && metas[k] == meta;
      assert Decodable(codec, block.records[k], block.index);
    } else {
      var metas := UserMetas(codec, block.records, id);
      assert metas[j] in metas;
      var meta := LastSome(metas);
      var k :| 0 <= k < |metas| && metas[k] == meta;
      assert Decodable(codec, block.records[k], block.index);
    }
  }

  /** A block without a record of genesis metadata has none to offer. */
  lemma NoGenesisMeta(codec: Codec, block: Block)
    requires !BlockHasGenesisMeta(codec, block)
    ensures GenesisMetaFromBlock(codec, block) == Err(Internal)
  {
    hide GenesisMetaOf;
    var metas := GenesisMetas(codec, block);
    forall x | x in metas
      ensures x.None?
    {
      var j :| 0 <= j < |metas| && metas[j] == x;
    }
  }

  lemma GenesisMetaIsSet(codec: Codec, block: Block)
    requires BlockHasGenesisMeta(codec, block)
    ensures SetAmong(codec, block, |block.records|, ID_GENESIS)
  {
    hide GenesisMetaOf;
    var j :| 0 <= j < |block.records| && GenesisMetaOf(codec, block.records[j], block.index).Some?;
    assert Sets(codec, block.records[j], ID_GENESIS, block.index);
  }

  /** The processed block appended: every account is anchored exactly when the genesis account is gone or the block did it no
      harm. */
  lemma BlockAnchorsIff(codec: Codec, l: Ledger, b: Accounts, node: ChainNode)
    requires AnchoredIn(codec, l, b, node.block, |node.block.records|) && node.block.index == l.Next()
    ensures Anchored(codec, Appended(l, node), b) <==> ID_GENESIS !in b || BlockHarmless(codec, node.block)
  {
    hide HoldsMeta, Decodable, WalletOk, LeavesGenesisWeak, UpdatesGenesis, BlockHasGenesisMeta, AnchoredBy;
    var longer := Appended(l, node);
    forall id | id in b
      ensures longer.Has(b[id].blockId)
      ensures HoldsMeta(codec, longer.At(b[id].blockId), id) <==>
        !(id == ID_GENESIS && BlockUpdatesGenesis(codec, node.block) && !BlockHasGenesisMeta(codec, node.block))
    {
      AccountAnchorsIff(codec, l, b, node, id);
    }
  }

  lemma AccountAnchorsIff(codec: Codec, l: Ledger, b: Accounts, node: ChainNode, id: Id)
    requires id in b && AnchoredBy(codec, l, b, node.block, |node.block.records|, id) && node.block.index == l.Next()
    requires forall j | 0 <= j < |node.block.records| :: Decodable(codec, node.block.records[j], node.block.index)
    ensures Appended(l, node).Has(b[id].blockId)
    ensures HoldsMeta(codec, Appended(l, node).At(b[id].blockId), id) <==>
      !(id == ID_GENESIS && BlockUpdatesGenesis(codec, node.block) && !BlockHasGenesisMeta(codec, node.block))
  {
    hide Decodable, UpdatesGenesis, BlockHasGenesisMeta, GenesisMetaFromBlock, UserAccountFromBlock;
    AppendedAt(l, node, l.Next());
    if id == ID_GENESIS && UpdatedAmong(codec, node.block, |node.block.records|) {
      if BlockHasGenesisMeta(codec, node.block) {
        GenesisMetaIsSet(codec, node.block);
        SetBlockHoldsMeta(codec, node.block, id);
      } else {
        NoGenesisMeta(codec, node.block);
      }
    } else if l.Has(b[id].blockId) && HoldsMeta(codec, l.At(b[id].blockId), id) {
      AppendedAt(l, node, b[id].blockId);
    } else {
      SetBlockHoldsMeta(codec, node.block, id);
    }
  }

  // ----- whole runs -----

  ghost predicate AnchorInvariant(codec: Codec, st: ChainState) {
    BaseInvariant(st) && Anchored(codec, st.ledger, st.world.accounts)
  }

  lemma StartsAnchored(codec: Codec, l: Ledger, b: Accounts, block: Block)
    requires Anchored(codec, l, b)
    ensures AnchoredIn(codec, l, b, block, 0)
  {
    hide HoldsMeta, WalletOk;
  }

  /** An accepted block keeps every account anchored if and only if the genesis account is gone afterwards or the block did
      it no harm. */
  lemma OfferKeepsAnchorsIff(codec: Codec, st: ChainState, node: ChainNode, now: int)
    requires AnchorInvariant(codec, st) && AtTip(st, node) && AddBlock(codec, st, node, now).1.Done?
    ensures var next := AddBlock(codec, st, node, now).0;
      AnchorInvariant(codec, next) <==> ID_GENESIS !in next.world.accounts || BlockHarmless(codec, node.block)
  {
    hide AddBlock, ProcessRecords, BaseInvariant, Anchored, AnchoredIn, BlockHarmless;
    OfferUnfolds(codec, st, node, now);
    OfferKeepsBase(codec, st, node, now);
    TipIsLater(st, node);
    StartsAnchored(codec, st.ledger, st.world.accounts, node.block);
    RecordsKeepAnchors(codec, st.ledger, st.world, node.block, 0);
    BlockAnchorsIff(codec, st.ledger, ProcessRecords(codec, st.ledger, st.world, node.block, 0, true).0.accounts, node);
  }

  /** After an accepted block the genesis account's metadata can be read if and only if the block has no user update of it or
      carries genesis metadata. */
  lemma GenesisReadableIff(codec: Codec, st: ChainState, node: ChainNode, now: int)
    requires AnchorInvariant(codec, st) && AtTip(st, node) && AddBlock(codec, st, node, now).1.Done?
    requires ID_GENESIS in AddBlock(codec, st, node, now).0.world.accounts
    ensures var next := AddBlock(codec, st, node, now).0; var at := next.world.accounts[ID_GENESIS].blockId;
      && next.ledger.Has(at)
      && (GenesisMetaFromBlock(codec, next.ledger.At(at)).Ok? <==>
            (BlockUpdatesGenesis(codec, node.block) ==> BlockHasGenesisMeta(codec, node.block)))
      && (GenesisMetaFromBlock(codec, next.ledger.At(at)).Err? ==>
            GenesisMetaFromBlock(codec, next.ledger.At(at)) == Err(Internal))
  {
    hide AddBlock, ProcessRecords, BaseInvariant, Anchored, WalletOk, Decodable, UpdatesGenesis, BlockHasGenesisMeta,
      GenesisMetaFromBlock, LeavesGenesisWeak;
    OfferUnfolds(codec, st, node, now);
    TipIsLater(st, node);
    StartsAnchored(codec, st.ledger, st.world.accounts, node.block);
    RecordsKeepAnchors(codec, st.ledger, st.world, node.block, 0);
    var b := ProcessRecords(codec, st.ledger, st.world, node.block, 0, true).0.accounts;
    AccountAnchorsIff(codec, st.ledger, b, node, ID_GENESIS);
    if BlockUpdatesGenesis(codec, node.block) && !BlockHasGenesisMeta(codec, node.block) {
      assert UpdatedAmong(codec, node.block, |node.block.records|);
      assert AnchoredBy(codec, st.ledger, b, node.block, |node.block.records|, ID_GENESIS);
      AppendedAt(st.ledger, node, st.ledger.Next());
      NoGenesisMeta(codec, node.block);
    }
  }

  lemma TipIsLater(st: ChainState, node: ChainNode)
    requires BaseInvariant(st) && AtTip(st, node)
    ensures node.block.index != 0
  {
  }

  predicate EventHarmless(codec: Codec, e: Event) {
    e.Offer? ==> BlockHarmless(codec, e.node.block)
  }

  /** In every state of every run of harmless blocks, each account's block holds its metadata, so its renewal can be made. */
  lemma {:induction false} AnchorsHold(codec: Codec, st: ChainState, events: seq<Event>)
    requires AnchorInvariant(codec, st) && Accepted(codec, st, events)
    requires forall i | 0 <= i < |events| :: EventHarmless(codec, events[i])
    ensures AnchorInvariant(codec, Run(codec, st, events).0)
    decreases |events|
  {
    hide AddBlock, AtTip, BaseInvariant, Anchored, BlockHarmless;
    if events != [] {
      var next := Step(codec, st, events[0]).0;
      assert EventHarmless(codec, events[0]);
      if events[0].Offer? {
        OfferKeepsAnchorsIff(codec, st, events[0].node, events[0].now);
      } else {
        RefreshKeepsBase(st, events[0].epoch);
      }
      AnchorsHold(codec, next, events[1..]);
    }
  }

  /** The genesis block anchors its four accounts if and only if the genesis wallet has the keys its later renewals must
      have. */
  lemma BootEstablishesAnchorsIff(codec: Codec, st: ChainState, schedule: Ouroboros.Schedule, genesis: ChainNode, now: int)
    requires Booted(codec, st, schedule, genesis, now)
    ensures |genesis.block.records| == 4 && codec.decode(genesis.block.records[0]).Some?
    ensures codec.genesisMetaOf(codec.decode(genesis.block.records[0]).value.meta).Some?
    ensures AnchorInvariant(codec, st) <==>
      CheckGenesisWallet(codec.genesisMetaOf(codec.decode(genesis.block.records[0]).value.meta).value.genesis.wallet).Done?
  {
    hide ProcessRecord, ProcessRecords, BaseInvariant, ValidateGenesisBlock, Anchored, GenesisNewUser, BlockHarmless;
    BootEstablishesBase(codec, st, schedule, genesis, now);
    var l, block := Initial(schedule).ledger, genesis.block;
    var w1 := BootUnfolds(codec, st, schedule, genesis, now);
    GenesisRecordsAreNewUsers(codec, genesis);
    FirstRecordAnchors(codec, l, w1.accounts, block);
    RecordsKeepAnchors(codec, l, w1, block, 1);
    BlockAnchorsIff(codec, l, st.world.accounts, genesis);
    assert Appended(l, genesis) == st.ledger;
    GenesisHarmlessIff(codec, block);
    GenesisKept(codec, st, schedule, genesis, now);
  }

  lemma GenesisRecordsAreNewUsers(codec: Codec, genesis: ChainNode)
    requires ValidateGenesisBlock(codec, genesis).Done?
    ensures |genesis.block.records| == 4 && genesis.block.index == 0
    ensures forall j | 0 < j < 4 :: codec.decode(genesis.block.records[j]).Some? && codec.decode(genesis.block.records[j]).value.TxNewUser?
  {
    hide MinFeeForTx;
  }

  lemma FirstRecordAnchors(codec: Codec, l: Ledger, b: Accounts, block: Block)
    requires |block.records| == 4 && block.index == 0
    requires codec.decode(block.records[0]).Some? && codec.decode(block.records[0]).value.TxGenesis?
    requires var gm := codec.genesisMetaOf(codec.decode(block.records[0]).value.meta);
      gm.Some? && b == map[ID_GENESIS := Account.Account(ID_GENESIS, gm.value.genesis.wallet, 0)]
    ensures AnchoredIn(codec, l, b, block, 1)
  {
    hide HoldsMeta, CheckGenesisWallet;
    assert Sets(codec, block.records[0], ID_GENESIS, 0) && Decodable(codec, block.records[0], 0);
  }

  lemma GenesisHarmlessIff(codec: Codec, block: Block)
    requires |block.records| == 4 && block.index == 0
    requires codec.decode(block.records[0]).Some? && codec.decode(block.records[0]).value.TxGenesis?
    requires codec.genesisMetaOf(codec.decode(block.records[0]).value.meta).Some?
    requires forall j | 0 < j < 4 :: codec.decode(block.records[j]).Some? && codec.decode(block.records[j]).value.TxNewUser?
    ensures BlockHarmless(codec, block) <==>
      CheckGenesisWallet(codec.genesisMetaOf(codec.decode(block.records[0]).value.meta).value.genesis.wallet).Done?
  {
    hide CheckGenesisWallet;
    assert LeavesGenesisWeak(codec, block, 4) <==> LeavesGenesisWeak(codec, block, 3);
    assert LeavesGenesisWeak(codec, block, 3) <==> LeavesGenesisWeak(codec, block, 2);
    assert LeavesGenesisWeak(codec, block, 2) <==> LeavesGenesisWeak(codec, block, 1);
  }

  lemma GenesisKept(codec: Codec, st: ChainState, schedule: Ouroboros.Schedule, genesis: ChainNode, now: int)
    requires Booted(codec, st, schedule, genesis, now) && |genesis.block.records| == 4
    requires forall j | 0 < j < 4 ::
      codec.decode(genesis.block.records[j]).Some? && codec.decode(genesis.block.records[j]).value.TxNewUser?
    ensures ID_GENESIS in st.world.accounts
  {
    hide ProcessRecord, ValidateGenesisBlock;
    var l, block := Initial(schedule).ledger, genesis.block;
    var w1 := BootUnfolds(codec, st, schedule, genesis, now);
    NewUsersKeepGenesis(codec, l, w1, block, 1);
  }

  lemma {:induction false} NewUsersKeepGenesis(codec: Codec, l: Ledger, w: World, block: Block, i: nat)
    requires i <= |block.records| && ID_GENESIS in w.accounts && ProcessRecords(codec, l, w, block, i, true).1.Done?
    requires forall j | i <= j < |block.records| ::
      codec.decode(block.records[j]).Some? && codec.decode(block.records[j]).value.TxNewUser?
    ensures ID_GENESIS in ProcessRecords(codec, l, w, block, i, true).0.accounts
    decreases |block.records| - i
  {
    hide ProcessRecord;
    if i < |block.records| {
      NewUserKeepsGenesis(codec, l, w, block.records[i], block);
      NewUsersKeepGenesis(codec, l, ProcessRecord(codec, l, w, block.records[i], block, true).0, block, i + 1);
    }
  }

  lemma NewUserKeepsGenesis(codec: Codec, l: Ledger, w: World, rec: Record, block: Block)
    requires ProcessRecord(codec, l, w, rec, block, true).1.Done? && ID_GENESIS in w.accounts
    requires codec.decode(rec).Some? && codec.decode(rec).value.TxNewUser?
    ensures ID_GENESIS in ProcessRecord(codec, l, w, rec, block, true).0.accounts
  {
    hide NewUser, Idempotency, ValidateTxSignatures;
    NewUserSets(ContextOf(codec, l, w), codec.decode(rec).value, w.accounts, map[], block.index);
  }
}
