/** The mempool overlay refines the committed bank: records that the overlay accepts one after another are accepted
    one after another by the block path, and lead to the committed accounts overridden by the overlay. */
module Overlay {
  import opened Numbers
  import opened Outcomes
  import opened ChainTypes
  import opened Bank
  import opened LedgerView
  import opened TxFees
  import opened TxHandlers
  import opened TxIdempotency
  import opened CheckpointSafety
  import opened LateJoiner

  /** The accounts a record reads or writes. */
  function Touched(tx: TypedTx): set<Id> {
    match tx
    case TxDefault(_, from, to, _, fee, _, _) => {from, to} + (if fee > 0 then {ID_FEE} else {})
    case TxGenesis(_, _) => {ID_GENESIS}
    case TxNewUser(from, to, _, fee, _, _) => {from, to} + (if fee > 0 then {ID_FEE} else {})
    case TxConfig(_, _, _) => {ID_GENESIS}
    case TxUserUpdate(id, fee, _, _) => {id} + (if fee > 0 then {ID_FEE} else {})
    case TxRenewal(id, fee, _) => {id} + (if fee > 0 then {ID_FEE} else {})
    case TxEndUser(id, _, _) => {id, ID_RECYCLE}
  }

  /** The two banks hold the same accounts among `ids`. */
  ghost predicate SameOn(b1: Accounts, b2: Accounts, ids: set<Id>) {
    forall id | id in ids :: (id in b1 <==> id in b2) && (id in b1 ==> b1[id] == b2[id])
  }

  /** Nothing outside `ids` has changed. */
  ghost predicate SameOutside(before: Accounts, after: Accounts, ids: set<Id>) {
    forall id | id !in ids :: (id in before <==> id in after) && (id in before ==> before[id] == after[id])
  }

  // ----- locality: a record depends on the accounts it touches and changes no others -----

  lemma BalanceLocal(b1: Accounts, b2: Accounts, ids: set<Id>, id: Id, token: Id)
    requires SameOn(b1, b2, ids) && id in ids
    ensures BalanceOf(b1, id, token) == BalanceOf(b2, id, token)
  {
  }

  lemma SpendingLocal(b1: Accounts, b2: Accounts, ids: set<Id>, id: Id, token: Id, amount: u64, fee: u64)
    requires SameOn(b1, b2, ids) && id in ids
    ensures VerifySpendingPower(b1, id, token, amount, fee) == VerifySpendingPower(b2, id, token, amount, fee)
  {
  }

  lemma SetLocal(b1: Accounts, b2: Accounts, ids: set<Id>, id: Id, token: Id, v: int)
    requires SameOn(b1, b2, ids) && id in ids && id in b1
    ensures SameOn(SetBalance(b1, id, token, v), SetBalance(b2, id, token, v), ids)
    ensures SameOutside(b1, SetBalance(b1, id, token, v), ids) && SameOutside(b2, SetBalance(b2, id, token, v), ids)
  {
  }

  lemma OutsideCompose(b: Accounts, mid: Accounts, after: Accounts, ids: set<Id>)
    requires SameOutside(b, mid, ids) && SameOutside(mid, after, ids)
    ensures SameOutside(b, after, ids)
  {
  }

  /** The same operation on two banks that agree on `ids`: same outcome, and they still agree there. */
  ghost predicate LocalStep(b1: Accounts, b2: Accounts, r1: (Accounts, Status), r2: (Accounts, Status), ids: set<Id>) {
    && r1.1 == r2.1 && SameOn(r1.0, r2.0, ids) && SameOutside(b1, r1.0, ids) && SameOutside(b2, r2.0, ids)
  }

  lemma MoveLocal(b1: Accounts, b2: Accounts, from: Id, to: Id, token: Id, amount: int, ids: set<Id>)
    requires SameOn(b1, b2, ids) && from in ids && to in ids && from in b1 && to in b1
    ensures SameOn(MoveAmount(b1, from, to, token, amount), MoveAmount(b2, from, to, token, amount), ids)
    ensures SameOutside(b1, MoveAmount(b1, from, to, token, amount), ids)
    ensures SameOutside(b2, MoveAmount(b2, from, to, token, amount), ids)
  {
    hide SameOutside;
    hide BalanceOf;
    hide WithBalance;
    BalanceLocal(b1, b2, ids, from, token);
    BalanceLocal(b1, b2, ids, to, token);
    var v := BalanceOf(b1, from, token) - amount;
    SetLocal(b1, b2, ids, from, token, v);
    var d1, d2 := SetBalance(b1, from, token, v), SetBalance(b2, from, token, v);
    SetLocal(d1, d2, ids, to, token, BalanceOf(b1, to, token) + amount);
    OutsideCompose(b1, d1, MoveAmount(b1, from, to, token, amount), ids);
    OutsideCompose(b2, d2, MoveAmount(b2, from, to, token, amount), ids);
  }

  lemma ChargeLocal(b1: Accounts, b2: Accounts, from: Id, to: Id, token: Id, amount: int, fee: int, ids: set<Id>)
    requires SameOn(b1, b2, ids) && from in ids && to in ids && from in b1 && to in b1
    ensures SameOn(ChargeFee(b1, from, to, token, amount, fee), ChargeFee(b2, from, to, token, amount, fee), ids)
    ensures SameOutside(b1, ChargeFee(b1, from, to, token, amount, fee), ids)
    ensures SameOutside(b2, ChargeFee(b2, from, to, token, amount, fee), ids)
  {
    hide SameOutside;
    hide BalanceOf;
    hide WithBalance;
    MoveLocal(b1, b2, from, to, token, amount, ids);
    BalanceLocal(b1, b2, ids, from, ID_GENESIS);
    var m1, m2 := MoveAmount(b1, from, to, token, amount), MoveAmount(b2, from, to, token, amount);
    var left := BalanceOf(b1, from, ID_GENESIS) - (if token == ID_GENESIS then amount else 0) - fee;
    SetLocal(m1, m2, ids, from, ID_GENESIS, left);
    OutsideCompose(b1, m1, ChargeFee(b1, from, to, token, amount, fee), ids);
    OutsideCompose(b2, m2, ChargeFee(b2, from, to, token, amount, fee), ids);
  }

  lemma TransferLocal(b1: Accounts, b2: Accounts, from: Id, to: Id, token: Id, amount: u64, fee: u64, ids: set<Id>)
    requires SameOn(b1, b2, ids) && from in ids && to in ids && (fee > 0 ==> ID_FEE in ids)
    ensures LocalStep(b1, b2, Transfer(b1, from, to, token, amount, fee), Transfer(b2, from, to, token, amount, fee), ids)
  {
    hide SameOutside;
    hide BalanceOf;
    hide WithBalance;
    hide MoveAmount;
    hide ChargeFee;
    SpendingLocal(b1, b2, ids, from, token, amount, fee);
    hide VerifySpendingPower;
    BalanceLocal(b1, b2, ids, to, token);
    SameOutsideSelf(b1, ids);
    SameOutsideSelf(b2, ids);
    if VerifySpendingPower(b1, from, token, amount, fee).Done? && to in b1 {
      MoveLocal(b1, b2, from, to, token, amount, ids);
      if fee > 0 {
        ChargeLocal(b1, b2, from, to, token, amount, fee, ids);
        var c1, c2 := ChargeFee(b1, from, to, token, amount, fee), ChargeFee(b2, from, to, token, amount, fee);
        CreditLocal(b1, b2, c1, c2, fee, ids);
      }
    }
  }

  lemma SameOutsideSelf(b: Accounts, ids: set<Id>)
    ensures SameOutside(b, b, ids)
  {
  }

  lemma CreditLocal(b1: Accounts, b2: Accounts, c1: Accounts, c2: Accounts, fee: u64, ids: set<Id>)
    requires SameOn(c1, c2, ids) && SameOutside(b1, c1, ids) && SameOutside(b2, c2, ids) && ID_FEE in ids
    ensures ID_FEE in c1 <==> ID_FEE in c2
    ensures BalanceOf(c1, ID_FEE, ID_GENESIS) == BalanceOf(c2, ID_FEE, ID_GENESIS)
    ensures ID_FEE in c1 ==>
      var d1 := SetBalance(c1, ID_FEE, ID_GENESIS, BalanceOf(c1, ID_FEE, ID_GENESIS) + fee);
      var d2 := SetBalance(c2, ID_FEE, ID_GENESIS, BalanceOf(c2, ID_FEE, ID_GENESIS) + fee);
      SameOn(d1, d2, ids) && SameOutside(b1, d1, ids) && SameOutside(b2, d2, ids)
  {
    BalanceLocal(c1, c2, ids, ID_FEE, ID_GENESIS);
    if ID_FEE in c1 {
      SetLocal(c1, c2, ids, ID_FEE, ID_GENESIS, BalanceOf(c1, ID_FEE, ID_GENESIS) + fee);
    }
  }

  lemma PutLocal(b1: Accounts, b2: Accounts, a: Account, ids: set<Id>)
    requires SameOn(b1, b2, ids) && a.id in ids
    ensures SameOn(b1[a.id := a], b2[a.id := a], ids)
    ensures SameOutside(b1, b1[a.id := a], ids) && SameOutside(b2, b2[a.id := a], ids)
  {
  }

  lemma ReplaceLocal(b1: Accounts, b2: Accounts, id: Id, wallet: Wallet, blockId: nat, fee: u64, ids: set<Id>)
    requires SameOn(b1, b2, ids) && id in ids && (fee > 0 ==> ID_FEE in ids)
    ensures LocalStep(b1, b2, ReplaceAndPay(b1, id, wallet, blockId, fee), ReplaceAndPay(b2, id, wallet, blockId, fee), ids)
  {
    var a := Account.Account(id, wallet, blockId);
    PutLocal(b1, b2, a, ids);
    if fee > 0 {
      DepositLocal(b1[id := a], b2[id := a], ID_FEE, ToInt64(fee), ids);
    }
  }

  lemma DepositLocal(b1: Accounts, b2: Accounts, id: Id, amount: int, ids: set<Id>)
    requires SameOn(b1, b2, ids) && id in ids
    ensures LocalStep(b1, b2, Deposit(b1, id, ID_GENESIS, amount), Deposit(b2, id, ID_GENESIS, amount), ids)
  {
    BalanceLocal(b1, b2, ids, id, ID_GENESIS);
    if id in b1 {
      SetLocal(b1, b2, ids, id, ID_GENESIS, BalanceOf(b1, id, ID_GENESIS) + amount);
    }
  }

  lemma VerifyBalanceLocal(b1: Accounts, b2: Accounts, id: Id, fee: u64, expected: Balances, ids: set<Id>)
    requires SameOn(b1, b2, ids) && id in ids
    ensures VerifyBalance(b1, id, 0, fee, expected) == VerifyBalance(b2, id, 0, fee, expected)
  {
  }

  lemma NewUserLocal(cx: Context, tx: TypedTx, b1: Accounts, b2: Accounts, existing: Accounts, blockId: nat)
    requires tx.TxNewUser? && SameOn(b1, b2, Touched(tx)) && tx.toWalletId !in existing
    ensures LocalStep(b1, b2, NewUser(cx, tx, b1, existing, blockId, true), NewUser(cx, tx, b2, map[], blockId, true), Touched(tx))
  {
    hide Transfer;
    hide CheckFee;
    hide SameOutside;
    var ids := Touched(tx);
    SpendingLocal(b1, b2, ids, tx.fromWalletId, ID_GENESIS, tx.amount, tx.fee);
    hide VerifySpendingPower;
    SameOutsideSelf(b1, ids);
    SameOutsideSelf(b2, ids);
    assert CheckNewUser(cx, tx, b1, existing, true) == CheckNewUser(cx, tx, b2, map[], true);
    if CheckNewUser(cx, tx, b1, existing, true).Done? {
      var a := Account.Account(tx.toWalletId, cx.codec.userAccountOf(tx.meta).value.wallet.(balances := map[]), blockId);
      PutLocal(b1, b2, a, ids);
      var a1, a2 := b1[tx.toWalletId := a], b2[tx.toWalletId := a];
      TransferLocal(a1, a2, tx.fromWalletId, tx.toWalletId, ID_GENESIS, tx.amount, tx.fee, ids);
      OutsideCompose(b1, a1, NewUser(cx, tx, b1, existing, blockId, true).0, ids);
      OutsideCompose(b2, a2, NewUser(cx, tx, b2, map[], blockId, true).0, ids);
    }
  }

  lemma UpsertLocal(cx: Context, id: Id, fee: u64, meta: Bytes, b1: Accounts, b2: Accounts, blockId: nat, ids: set<Id>)
    requires SameOn(b1, b2, ids) && id in ids && (fee > 0 ==> ID_FEE in ids)
    ensures LocalStep(b1, b2, Upsert(cx, id, fee, meta, b1, blockId, true), Upsert(cx, id, fee, meta, b2, blockId, true), ids)
  {
    hide CheckFee;
    hide SameOutside;
    hide ReplaceAndPay;
    SameOutsideSelf(b1, ids);
    SameOutsideSelf(b2, ids);
    var account := cx.codec.userAccountOf(meta);
    if account.Some? {
      VerifyBalanceLocal(b1, b2, id, fee, account.value.wallet.balances, ids);
      ReplaceLocal(b1, b2, id, account.value.wallet, blockId, fee, ids);
    }
    hide VerifyBalance;
  }

  lemma GenesisRenewalLocal(cx: Context, tx: TypedTx, b1: Accounts, b2: Accounts, blockId: nat)
    requires tx.TxRenewal? && tx.walletId == ID_GENESIS && SameOn(b1, b2, Touched(tx))
    ensures LocalStep(b1, b2, GenesisRenewal(cx, tx, b1, blockId, true), GenesisRenewal(cx, tx, b2, blockId, true), Touched(tx))
  {
    hide CheckFee;
    hide SameOutside;
    hide ReplaceAndPay;
    hide VerifyBalance;
    var ids := Touched(tx);
    SameOutsideSelf(b1, ids);
    SameOutsideSelf(b2, ids);
    var gm := cx.codec.genesisMetaOf(tx.meta);
    if gm.Some? {
      VerifyBalanceLocal(b1, b2, ID_GENESIS, tx.fee, gm.value.genesis.wallet.balances, ids);
      ReplaceLocal(b1, b2, ID_GENESIS, gm.value.genesis.wallet, blockId, tx.fee, ids);
    }
  }

  lemma WriteOffLocal(b1: Accounts, b2: Accounts, id: Id, ids: set<Id>)
    requires SameOn(b1, b2, ids) && id in ids && ID_RECYCLE in ids
    ensures LocalStep(b1, b2, WriteOff(b1, id), WriteOff(b2, id), ids)
  {
    hide Absorb;
  }

  lemma EndUserLocal(cx: Context, tx: TypedTx, b1: Accounts, b2: Accounts)
    requires tx.TxEndUser? && SameOn(b1, b2, Touched(tx))
    ensures LocalStep(b1, b2, EndUser(cx, tx, b1), EndUser(cx, tx, b2), Touched(tx))
  {
    hide SameOutside;
    hide WriteOff;
    hide UserAccountFromBlock;
    hide GenesisMetaFromBlock;
    hide MinFeeForSize;
    var ids := Touched(tx);
    assert tx.walletId in ids;
    SameOutsideSelf(b1, ids);
    SameOutsideSelf(b2, ids);
    WriteOffLocal(b1, b2, tx.walletId, ids);
    BalanceLocal(b1, b2, ids, tx.walletId, ID_GENESIS);
  }

  /** The strict handlers are local. Whether an account exists elsewhere matters only to a new user's id. */
  lemma HandleLocal(cx: Context, tx: TypedTx, b1: Accounts, b2: Accounts, existing: Accounts, blockId: nat)
    requires !tx.TxGenesis? && !tx.TxConfig? && SameOn(b1, b2, Touched(tx))
    requires tx.TxNewUser? ==> tx.toWalletId !in existing
    ensures LocalStep(b1, b2, Handle(cx, tx, b1, existing, blockId, true), Handle(cx, tx, b2, map[], blockId, true), Touched(tx))
  {
    hide LocalStep;
    hide Transfer;
    hide NewUser;
    hide Upsert;
    hide GenesisRenewal;
    hide EndUser;
    match tx
    case TxDefault(token, from, to, amount, fee, _, _) =>
      TransferStrictLocal(cx, tx, b1, b2);
    case TxNewUser(_, _, _, _, _, _) =>
      NewUserLocal(cx, tx, b1, b2, existing, blockId);
    case TxUserUpdate(id, fee, meta, _) =>
      UpsertLocal(cx, id, fee, meta, b1, b2, blockId, Touched(tx));
    case TxRenewal(id, fee, meta) =>
      if id == ID_GENESIS {
        GenesisRenewalLocal(cx, tx, b1, b2, blockId);
      } else {
        UpsertLocal(cx, id, fee, meta, b1, b2, blockId, Touched(tx));
      }
    case TxEndUser(_, _, _) =>
      EndUserLocal(cx, tx, b1, b2);
  }

  lemma TransferStrictLocal(cx: Context, tx: TypedTx, b1: Accounts, b2: Accounts)
    requires tx.TxDefault? && SameOn(b1, b2, Touched(tx))
    ensures LocalStep(b1, b2, TransferStrict(cx, tx, b1), TransferStrict(cx, tx, b2), Touched(tx))
  {
    hide Transfer;
    hide CheckFee;
    TransferLocal(b1, b2, tx.fromWalletId, tx.toWalletId, tx.tokenId, tx.amount, tx.fee, Touched(tx));
  }

  // ----- what the overlay stands for -----

  /** The committed accounts overridden by the overlay, without the accounts that were ended. */
  function Denotes(committed: Accounts, overlay: Accounts, ended: set<Id>): Accounts {
    (committed + overlay) - ended
  }

  function EndedBy(tx: TypedTx): set<Id> {
    if tx.TxEndUser? then {tx.walletId} else {}
  }

  /** Accounts are stored under their own id. */
  predicate IdsMatch(b: Accounts) {
    forall id | id in b :: b[id].id == id
  }

  lemma {:induction false} SeedingKeepsMeaning(b: Accounts, committed: Accounts, ids: seq<Id>, ended: set<Id>)
    requires IdsMatch(committed) && SeedAll(b, committed, ids).1.Done?
    ensures var seeded := SeedAll(b, committed, ids).0;
      && Denotes(committed, seeded, ended) == Denotes(committed, b, ended)
      && b.Keys <= seeded.Keys <= b.Keys + (set i | i in ids)
      && (forall i | i in ids :: i in seeded)
    decreases |ids|
  {
    if ids != [] {
      var (one, s) := SeedFromCommitted(b, committed, ids[0]);
      assert Denotes(committed, one, ended) == Denotes(committed, b, ended);
      SeedingKeepsMeaning(one, committed, ids[1..], ended);
    }
  }

  lemma SeedsAreTouched(tx: TypedTx)
    requires !tx.TxGenesis?
    ensures forall id | id in SeedIds(tx) :: id in Touched(tx)
    ensures forall id | id in Touched(tx) :: id in SeedIds(tx) || (tx.TxNewUser? && id == tx.toWalletId)
  {
  }

  // ----- one record -----

  /** A record accepted by the overlay, touching no ended account, is accepted by the accounts that the overlay
      stands for, and both then stand for the same accounts. */
  lemma OverlayStep(cx: Context, tx: TypedTx, committed: Accounts, overlay: Accounts, ended: set<Id>, blockId: nat)
    requires IdsMatch(committed) && !tx.TxGenesis? && !tx.TxConfig? && ended !! Touched(tx)
    requires SeedAll(overlay, committed, SeedIds(tx)).1.Done?
    requires Handle(cx, tx, SeedAll(overlay, committed, SeedIds(tx)).0, committed, blockId, true).1.Done?
    ensures var after := Handle(cx, tx, SeedAll(overlay, committed, SeedIds(tx)).0, committed, blockId, true).0;
      Handle(cx, tx, Denotes(committed, overlay, ended), map[], blockId, true)
        == (Denotes(committed, after, ended + EndedBy(tx)), Done)
  {
    hide Handle;
    hide SeedAll;
    hide SameOn;
    hide SameOutside;
    hide Touched;
    var seeded := SeedAll(overlay, committed, SeedIds(tx)).0;
    var direct := Denotes(committed, overlay, ended);
    SeedingKeepsMeaning(overlay, committed, SeedIds(tx), ended);
    SeedsAreTouched(tx);
    NewIdIsNew(cx, tx, seeded, committed, blockId);
    SeededAgrees(tx, committed, seeded, ended);
    HandleLocal(cx, tx, seeded, direct, committed, blockId);
    var after := Handle(cx, tx, seeded, committed, blockId, true).0;
    var directAfter := Handle(cx, tx, direct, map[], blockId, true).0;
    EndedIsGone(cx, tx, seeded, committed, blockId);
    MeaningAfter(cx, tx, committed, seeded, direct, after, directAfter, ended, blockId);
  }

  lemma NewIdIsNew(cx: Context, tx: TypedTx, seeded: Accounts, committed: Accounts, blockId: nat)
    requires !tx.TxGenesis? && Handle(cx, tx, seeded, committed, blockId, true).1.Done?
    ensures tx.TxNewUser? ==> tx.toWalletId !in seeded && tx.toWalletId !in committed
  {
  }

  lemma EndedIsGone(cx: Context, tx: TypedTx, b: Accounts, existing: Accounts, blockId: nat)
    requires !tx.TxGenesis? && Handle(cx, tx, b, existing, blockId, true).1.Done?
    ensures forall id | id in EndedBy(tx) :: id !in Handle(cx, tx, b, existing, blockId, true).0
    ensures forall id | id in b && id !in EndedBy(tx) :: id in Handle(cx, tx, b, existing, blockId, true).0
  {
    hide CheckFee;
    hide VerifyBalance;
    hide VerifySpendingPower;
    hide BalanceOf;
    hide MinFeeForAccount;
  }

  lemma SeededAgrees(tx: TypedTx, committed: Accounts, seeded: Accounts, ended: set<Id>)
    requires ended !! Touched(tx) && (forall id | id in Touched(tx) :: id in seeded || id !in committed)
    ensures SameOn(seeded, Denotes(committed, seeded, ended), Touched(tx))
  {
  }

  lemma MeaningAfter(cx: Context, tx: TypedTx, committed: Accounts, seeded: Accounts, direct: Accounts, after: Accounts,
                     directAfter: Accounts, ended: set<Id>, blockId: nat)
    requires !tx.TxGenesis? && direct == Denotes(committed, seeded, ended)
    requires ended !! Touched(tx)
    requires SameOn(after, directAfter, Touched(tx))
    requires SameOutside(seeded, after, Touched(tx)) && SameOutside(direct, directAfter, Touched(tx))
    requires forall id | id in EndedBy(tx) :: id !in after
    requires forall id | id in seeded && id !in EndedBy(tx) :: id in after
    requires forall id | id in Touched(tx) :: id in seeded || id !in committed
    ensures directAfter == Denotes(committed, after, ended + EndedBy(tx))
  {
    var meant := Denotes(committed, after, ended + EndedBy(tx));
    forall id
      ensures (id in directAfter <==> id in meant) && (id in directAfter ==> directAfter[id] == meant[id])
    {
      if id in Touched(tx) {
      } else {
        assert id !in EndedBy(tx);
      }
    }
  }

  // ----- sequences of records -----

  /** The overlay after the records, as long as they are accepted. */
  function OverlayRun(cx: Context, committed: Accounts, overlay: Accounts, records: seq<Record>, blockId: nat, slot: nat): (Accounts, Status)
    decreases |records|
  {
    if records == [] then (overlay, Done)
    else
      var (next, s) := ApplyBuffer(cx, committed, records[0], overlay, blockId, slot);
      if s.Failed? then (next, s) else OverlayRun(cx, committed, next, records[1..], blockId, slot)
  }

  /** The committed accounts after the records, on the strict block path. */
  function BlockRun(cx: Context, b: Accounts, records: seq<Record>, blockId: nat, slot: nat): (Accounts, Status)
    decreases |records|
  {
    if records == [] then (b, Done)
    else
      match cx.codec.decode(records[0])
      case None => (b, Failed(InvalidArgument))
      case Some(tx) =>
        if tx.TxGenesis? then (b, Failed(TxType))
        else
          var (next, s) := ApplyAccounts(cx, tx, b, blockId, slot, true);
          if s.Failed? then (next, s) else BlockRun(cx, next, records[1..], blockId, slot)
  }

  /** The accounts ended by the records. */
  function Ended(codec: Codec, records: seq<Record>): set<Id>
    decreases |records|
  {
    if records == [] then {}
    else
      (match codec.decode(records[0])
       case None => {}
       case Some(tx) => EndedBy(tx)) + Ended(codec, records[1..])
  }

  /** No configuration record, and no record that touches an account ended by an earlier one or in `ended`. */
  predicate LeavesEndedAlone(codec: Codec, records: seq<Record>, ended: set<Id>)
    decreases |records|
  {
    records == [] ||
    match codec.decode(records[0])
    case None => LeavesEndedAlone(codec, records[1..], ended)
    case Some(tx) => !tx.TxConfig? && ended !! Touched(tx) && LeavesEndedAlone(codec, records[1..], ended + EndedBy(tx))
  }

  lemma {:induction false} OverlayRunRefines(cx: Context, committed: Accounts, overlay: Accounts, ended: set<Id>,
                                             records: seq<Record>, blockId: nat, slot: nat)
    requires IdsMatch(committed) && LeavesEndedAlone(cx.codec, records, ended)
    requires OverlayRun(cx, committed, overlay, records, blockId, slot).1.Done?
    ensures var after := OverlayRun(cx, committed, overlay, records, blockId, slot).0;
      BlockRun(cx, Denotes(committed, overlay, ended), records, blockId, slot)
        == (Denotes(committed, after, ended + Ended(cx.codec, records)), Done)
    decreases |records|
  {
    hide Handle;
    hide SeedAll;
    hide Idempotency;
    hide Denotes;
    hide Touched;
    if records == [] {
      assert ended + {} == ended;
    } else {
      var tx := cx.codec.decode(records[0]).value;
      OverlayStep(cx, tx, committed, overlay, ended, blockId);
      var next := ApplyBuffer(cx, committed, records[0], overlay, blockId, slot).0;
      OverlayRunRefines(cx, committed, next, ended + EndedBy(tx), records[1..], blockId, slot);
      assert ended + EndedBy(tx) + Ended(cx.codec, records[1..]) == ended + Ended(cx.codec, records);
    }
  }

  /** Records accepted one after another by an initially empty overlay are accepted one after another by the strict
      block path at the same slot, which then holds the committed accounts overridden by the overlay, without the
      accounts that were ended. */
  lemma OverlayRefines(cx: Context, committed: Accounts, records: seq<Record>, blockId: nat, slot: nat)
    requires IdsMatch(committed) && LeavesEndedAlone(cx.codec, records, {})
    requires OverlayRun(cx, committed, map[], records, blockId, slot).1.Done?
    ensures BlockRun(cx, committed, records, blockId, slot)
         == ((committed + OverlayRun(cx, committed, map[], records, blockId, slot).0) - Ended(cx.codec, records), Done)
  {
    OverlayRunRefines(cx, committed, map[], {}, records, blockId, slot);
    assert Denotes(committed, map[], {}) == committed;
    assert {} + Ended(cx.codec, records) == Ended(cx.codec, records);
  }

  // ----- records that touch an ended account -----

  predicate NoConfig(codec: Codec, records: seq<Record>) {
    forall i | 0 <= i < |records| :: codec.decode(records[i]).Some? ==> !codec.decode(records[i]).value.TxConfig?
  }

  /** Every account was there before the block, or was set by it. */
  ghost predicate FromHere(committed: Accounts, b: Accounts, blockId: nat) {
    forall id | id in b :: id in committed || b[id].blockId == blockId
  }

  /** The overlay copies an ended account again and takes the record; the block path misses the account and refuses it. */
  lemma EndedStops(cx: Context, tx: TypedTx, committed: Accounts, seeded: Accounts, b: Accounts, ended: set<Id>, blockId: nat)
    requires !tx.TxGenesis? && !tx.TxConfig? && !(ended !! Touched(tx)) && ID_FEE !in ended
    requires (forall id | id in ended :: id !in b && id in committed)
    requires Handle(cx, tx, seeded, committed, blockId, true).1.Done?
    ensures Handle(cx, tx, b, map[], blockId, true).1.Failed?
  {
    hide CheckFee, VerifyBalance, ReplaceAndPay, MinFeeForAccount, Absorb, CheckWallet, CheckGenesisWallet, MoveAmount, ChargeFee;
    if tx.TxNewUser? {
      NewIdIsNew(cx, tx, seeded, committed, blockId);
    }
  }

  /** Only accounts that were there before the block can be ended in it. */
  lemma EndedWasThere(cx: Context, tx: TypedTx, committed: Accounts, b: Accounts)
    requires tx.TxEndUser? && FromHere(committed, b, cx.ledger.Next())
    requires Handle(cx, tx, b, map[], cx.ledger.Next(), true).1.Done?
    ensures tx.walletId in committed
  {
    hide Absorb;
  }

  /** Records that the overlay accepts one after another pass the strict block path if and only if none touches an account that
      an earlier one has ended: the overlay keeps no trace of an ended account and copies it again. */
  lemma {:induction false} OverlayRunIff(cx: Context, committed: Accounts, overlay: Accounts, ended: set<Id>,
                                         records: seq<Record>, slot: nat)
    requires IdsMatch(committed) && ended <= committed.Keys && ID_FEE !in ended
    requires FromHere(committed, Denotes(committed, overlay, ended), cx.ledger.Next())
    requires NoConfig(cx.codec, records) && KeepsFeeAccount(cx.codec, records)
    requires OverlayRun(cx, committed, overlay, records, cx.ledger.Next(), slot).1.Done?
    ensures BlockRun(cx, Denotes(committed, overlay, ended), records, cx.ledger.Next(), slot).1.Done? <==>
      LeavesEndedAlone(cx.codec, records, ended)
    decreases |records|
  {
    hide Handle, SeedAll, Idempotency, Touched, IdsMatch;
    if records != [] {
      var blockId := cx.ledger.Next();
      var tx := cx.codec.decode(records[0]).value;
      var b := Denotes(committed, overlay, ended);
      var next := ApplyBuffer(cx, committed, records[0], overlay, blockId, slot).0;
      assert !tx.TxConfig?;
      if ended !! Touched(tx) {
        OverlayStep(cx, tx, committed, overlay, ended, blockId);
        HandleStamps(cx, tx, b, map[], blockId);
        if tx.TxEndUser? {
          EndedWasThere(cx, tx, committed, b);
        }
        assert forall i | 0 <= i < |records[1..]| :: records[1..][i] == records[i + 1];
        OverlayRunIff(cx, committed, next, ended + EndedBy(tx), records[1..], slot);
      } else {
        EndedStops(cx, tx, committed, SeedAll(overlay, committed, SeedIds(tx)).0, b, ended, blockId);
      }
    }
  }

  /** From an empty overlay. */
  lemma OverlayAgreesIff(cx: Context, committed: Accounts, records: seq<Record>, slot: nat)
    requires IdsMatch(committed) && NoConfig(cx.codec, records) && KeepsFeeAccount(cx.codec, records)
    requires OverlayRun(cx, committed, map[], records, cx.ledger.Next(), slot).1.Done?
    ensures BlockRun(cx, committed, records, cx.ledger.Next(), slot).1.Done? <==> LeavesEndedAlone(cx.codec, records, {})
  {
    hide OverlayRun, BlockRun, LeavesEndedAlone;
    assert Denotes(committed, map[], {}) == committed;
    OverlayRunIff(cx, committed, map[], {}, records, slot);
  }
}
