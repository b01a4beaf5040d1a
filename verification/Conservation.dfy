/** Tokens are neither created nor destroyed by accepted records, record by record and over whole runs. */
module Conservation {
  import opened Numbers
  import opened Outcomes
  import opened ChainTypes
  import opened Bank
  import opened BankTotals
  import opened LedgerView
  import opened TxHandlers
  import opened ChainSpec
  import opened Runs

  /** How an accepted strict record moves the total of token `t`. Only three kinds of record move it at all. */
  function Drift(b: Accounts, tx: TypedTx, t: Id): int {
    match tx
    case TxDefault(token, from, to, amount, fee, _, _) => SelfTransferDrift(from, to, token, amount, fee, t)
    case TxUserUpdate(_, fee, _, _) => if t == ID_GENESIS && ID_FEE !in b then -(fee as int) else 0
    case TxRenewal(_, fee, _) => if t == ID_GENESIS && ID_FEE !in b then -(fee as int) else 0
    case TxEndUser(id, _, _) => -WriteOffLoss(b, id, t)
    case _ => 0
  }

  /** A condition on the record and the bank before it, under which the record conserves every token. */
  predicate Conserving(b: Accounts, tx: TypedTx) {
    match tx
    case TxDefault(_, from, to, amount, _, _, _) => from != to || amount == 0
    case TxUserUpdate(_, fee, _, _) => fee == 0 || ID_FEE in b
    case TxRenewal(_, fee, _) => fee == 0 || ID_FEE in b
    case TxEndUser(id, _, _) =>
      id in b ==> forall t | t in b[id].wallet.balances ::
        b[id].wallet.balances[t] == 0 || (id != ID_RECYCLE && b[id].wallet.balances[t] > 0)
    case _ => true
  }

  lemma ReplaceTotal(b: Accounts, id: Id, wallet: Wallet, blockId: nat, fee: u64, t: Id)
    requires id in b && VerifyBalance(b, id, 0, fee, wallet.balances).Done?
    requires ReplaceAndPay(b, id, wallet, blockId, fee).1.Done?
    ensures Total(ReplaceAndPay(b, id, wallet, blockId, fee).0, t)
         == Total(b, t) - (if t == ID_GENESIS && ID_FEE !in b then fee as int else 0)
  {
    var a := Account.Account(id, wallet, blockId);
    TotalPut(b, a, id, t);
    assert TokenBalance(wallet.balances, t) == BalanceOf(b, id, t) - (if t == ID_GENESIS then fee as int else 0);
    if fee > 0 && ID_FEE in b {
      DepositTotal(b[id := a], ID_FEE, ID_GENESIS, ToInt64(fee), t);
    }
  }

  lemma NewUserTotal(cx: Context, tx: TypedTx, b: Accounts, existing: Accounts, blockId: nat, strict: bool, t: Id)
    requires tx.TxNewUser? && NewUser(cx, tx, b, existing, blockId, strict).1.Done?
    ensures Total(NewUser(cx, tx, b, existing, blockId, strict).0, t) == Total(b, t)
  {
    var wallet := cx.codec.userAccountOf(tx.meta).value.wallet.(balances := map[]);
    var a := Account.Account(tx.toWalletId, wallet, blockId);
    TotalPut(b, a, tx.toWalletId, t);
    TransferTotal(b[tx.toWalletId := a], tx.fromWalletId, tx.toWalletId, ID_GENESIS, tx.amount, tx.fee, t);
  }

  /** Every accepted strict record moves a token's total by exactly its drift. */
  lemma RecordDrift(cx: Context, tx: TypedTx, b: Accounts, existing: Accounts, blockId: nat, t: Id)
    requires !tx.TxGenesis? && Handle(cx, tx, b, existing, blockId, true).1.Done?
    ensures Total(Handle(cx, tx, b, existing, blockId, true).0, t) == Total(b, t) + Drift(b, tx, t)
  {
    match tx
    case TxDefault(token, from, to, amount, fee, _, _) =>
      TransferTotal(b, from, to, token, amount, fee, t);
    case TxNewUser(_, _, _, _, _, _) =>
      NewUserTotal(cx, tx, b, existing, blockId, true, t);
    case TxConfig(_, meta, _) =>
      var wallet := cx.codec.genesisMetaOf(meta).value.genesis.wallet;
      ReplaceTotal(b, ID_GENESIS, wallet, blockId, 0, t);
    case TxUserUpdate(id, fee, meta, _) =>
      ReplaceTotal(b, id, cx.codec.userAccountOf(meta).value.wallet, blockId, fee, t);
    case TxRenewal(id, fee, meta) =>
      if id == ID_GENESIS {
        ReplaceTotal(b, id, cx.codec.genesisMetaOf(meta).value.genesis.wallet, blockId, fee, t);
      } else {
        ReplaceTotal(b, id, cx.codec.userAccountOf(meta).value.wallet, blockId, fee, t);
      }
    case TxEndUser(id, _, _) =>
      WriteOffTotal(b, id, t);
  }

  lemma DriftIff(b: Accounts, tx: TypedTx)
    requires !tx.TxGenesis? && (tx.TxEndUser? ==> tx.walletId in b)
    ensures (forall t :: Drift(b, tx, t) == 0) <==> Conserving(b, tx)
  {
    match tx
    case TxDefault(token, _, _, amount, _, _, _) =>
      assert Drift(b, tx, token) == 0 <==> Conserving(b, tx);
    case TxUserUpdate(_, _, _, _) =>
      assert Drift(b, tx, ID_GENESIS) == 0 <==> Conserving(b, tx);
    case TxRenewal(_, _, _) =>
      assert Drift(b, tx, ID_GENESIS) == 0 <==> Conserving(b, tx);
    case TxEndUser(id, _, _) =>
      var balances := b[id].wallet.balances;
      forall t | t in balances
        ensures Drift(b, tx, t) == 0 <==> balances[t] == 0 || (id != ID_RECYCLE && balances[t] > 0)
      {
      }
    case _ =>
  }

  lemma EndedAccountKnown(cx: Context, tx: TypedTx, b: Accounts, existing: Accounts, blockId: nat)
    requires !tx.TxGenesis? && Handle(cx, tx, b, existing, blockId, true).1.Done?
    ensures tx.TxEndUser? ==> tx.walletId in b
  {
  }

  /** An accepted strict record conserves every token if and only if `Conserving` holds before it. */
  lemma ConservesIff(cx: Context, tx: TypedTx, b: Accounts, existing: Accounts, blockId: nat)
    requires !tx.TxGenesis? && Handle(cx, tx, b, existing, blockId, true).1.Done?
    ensures (forall t :: Total(Handle(cx, tx, b, existing, blockId, true).0, t) == Total(b, t)) <==> Conserving(b, tx)
  {
    hide Handle;
    hide Drift;
    hide Conserving;
    EndedAccountKnown(cx, tx, b, existing, blockId);
    DriftIff(b, tx);
    var after := Handle(cx, tx, b, existing, blockId, true).0;
    forall t
      ensures Total(after, t) == Total(b, t) + Drift(b, tx, t)
    {
      RecordDrift(cx, tx, b, existing, blockId, t);
    }
    if !Conserving(b, tx) {
      var t :| Drift(b, tx, t) != 0;
      assert Total(after, t) != Total(b, t);
    }
  }

  // ----- blocks and whole runs -----

  /** The drifts of the block's records from position `i` on, each for the accounts that the record meets. */
  function DriftFrom(codec: Codec, l: Ledger, w: World, block: Block, i: nat, t: Id): int
    requires i <= |block.records|
    decreases |block.records| - i
  {
    if i == |block.records| then 0
    else
      var tx := codec.decode(block.records[i]);
      (if tx.Some? then Drift(w.accounts, tx.value, t) else 0)
      + DriftFrom(codec, l, ProcessRecord(codec, l, w, block.records[i], block, true).0, block, i + 1, t)
  }

  function DriftAlong(codec: Codec, st: ChainState, events: seq<Event>, t: Id): int
    decreases |events|
  {
    if events == [] then 0
    else
      (if events[0].Offer? then DriftFrom(codec, st.ledger, st.world, events[0].node.block, 0, t) else 0)
      + DriftAlong(codec, Step(codec, st, events[0]).0, events[1..], t)
  }

  lemma ProcessDrift(codec: Codec, l: Ledger, w: World, rec: Record, block: Block, t: Id)
    requires block.index != 0 && ProcessRecord(codec, l, w, rec, block, true).1.Done?
    ensures codec.decode(rec).Some? && !codec.decode(rec).value.TxGenesis?
    ensures Total(ProcessRecord(codec, l, w, rec, block, true).0.accounts, t)
         == Total(w.accounts, t) + Drift(w.accounts, codec.decode(rec).value, t)
  {
    hide Handle, Idempotency, ValidateTxSignatures, Drift, Total;
    RecordDrift(ContextOf(codec, l, w), codec.decode(rec).value, w.accounts, map[], block.index, t);
  }

  lemma {:induction false} RecordsDrift(codec: Codec, l: Ledger, w: World, block: Block, i: nat, t: Id)
    requires block.index != 0 && i <= |block.records| && ProcessRecords(codec, l, w, block, i, true).1.Done?
    ensures Total(ProcessRecords(codec, l, w, block, i, true).0.accounts, t)
         == Total(w.accounts, t) + DriftFrom(codec, l, w, block, i, t)
    decreases |block.records| - i
  {
    hide ProcessRecord, Drift, Total;
    if i < |block.records| {
      ProcessDrift(codec, l, w, block.records[i], block, t);
      RecordsDrift(codec, l, ProcessRecord(codec, l, w, block.records[i], block, true).0, block, i + 1, t);
    }
  }

  /** Over every run, from any accounts, a token's total moves by exactly the sum of the records' drifts. */
  lemma {:induction false} RunDrift(codec: Codec, st: ChainState, events: seq<Event>, t: Id)
    requires BaseInvariant(st) && Accepted(codec, st, events)
    ensures Total(Run(codec, st, events).0.world.accounts, t) == Total(st.world.accounts, t) + DriftAlong(codec, st, events, t)
    decreases |events|
  {
    hide AddBlock, BaseInvariant, Total, DriftFrom;
    if events != [] {
      var next := Step(codec, st, events[0]).0;
      if events[0].Offer? {
        OfferKeepsBase(codec, st, events[0].node, events[0].now);
        OfferDrift(codec, st, events[0].node, events[0].now, t);
      } else {
        RefreshKeepsBase(st, events[0].epoch);
      }
      RunDrift(codec, next, events[1..], t);
    }
  }

  lemma OfferDrift(codec: Codec, st: ChainState, node: ChainNode, now: int, t: Id)
    requires BaseInvariant(st) && AtTip(st, node) && AddBlock(codec, st, node, now).1.Done?
    ensures Total(AddBlock(codec, st, node, now).0.world.accounts, t)
         == Total(st.world.accounts, t) + DriftFrom(codec, st.ledger, st.world, node.block, 0, t)
  {
    hide AddBlock, Total, DriftFrom, ProcessRecords;
    OfferUnfolds(codec, st, node, now);
    TipIsLater(st, node);
    RecordsDrift(codec, st.ledger, st.world, node.block, 0, t);
  }

  lemma TipIsLater(st: ChainState, node: ChainNode)
    requires BaseInvariant(st) && AtTip(st, node)
    ensures node.block.index != 0
  {
  }

  /** Every record of the block conserves every token for the accounts it meets. */
  predicate ConservingFrom(codec: Codec, l: Ledger, w: World, block: Block, i: nat)
    requires i <= |block.records|
    decreases |block.records| - i
  {
    i == |block.records| ||
    ((codec.decode(block.records[i]).Some? ==> Conserving(w.accounts, codec.decode(block.records[i]).value)) &&
     ConservingFrom(codec, l, ProcessRecord(codec, l, w, block.records[i], block, true).0, block, i + 1))
  }

  predicate ConservingAlong(codec: Codec, st: ChainState, events: seq<Event>)
    decreases |events|
  {
    events == [] ||
    (&& (events[0].Offer? ==> ConservingFrom(codec, st.ledger, st.world, events[0].node.block, 0))
     && ConservingAlong(codec, Step(codec, st, events[0]).0, events[1..]))
  }

  lemma {:induction false} ConservingBlocksDoNotDrift(codec: Codec, l: Ledger, w: World, block: Block, i: nat, t: Id)
    requires block.index != 0 && i <= |block.records| && ProcessRecords(codec, l, w, block, i, true).1.Done?
    requires ConservingFrom(codec, l, w, block, i)
    ensures DriftFrom(codec, l, w, block, i, t) == 0
    decreases |block.records| - i
  {
    hide ProcessRecord, Drift, Conserving;
    if i < |block.records| {
      var rec := block.records[i];
      ProcessEnds(codec, l, w, rec, block);
      DriftIff(w.accounts, codec.decode(rec).value);
      ConservingBlocksDoNotDrift(codec, l, ProcessRecord(codec, l, w, rec, block, true).0, block, i + 1, t);
    }
  }

  lemma ProcessEnds(codec: Codec, l: Ledger, w: World, rec: Record, block: Block)
    requires block.index != 0 && ProcessRecord(codec, l, w, rec, block, true).1.Done?
    ensures codec.decode(rec).Some? && !codec.decode(rec).value.TxGenesis?
    ensures codec.decode(rec).value.TxEndUser? ==> codec.decode(rec).value.walletId in w.accounts
  {
    hide Handle, Idempotency, ValidateTxSignatures;
    EndedAccountKnown(ContextOf(codec, l, w), codec.decode(rec).value, w.accounts, map[], block.index);
  }

  lemma {:induction false} ConservingRunsDoNotDrift(codec: Codec, st: ChainState, events: seq<Event>, t: Id)
    requires BaseInvariant(st) && Accepted(codec, st, events) && ConservingAlong(codec, st, events)
    ensures DriftAlong(codec, st, events, t) == 0
    decreases |events|
  {
    hide AddBlock, BaseInvariant, DriftFrom, ConservingFrom;
    if events != [] {
      var next := Step(codec, st, events[0]).0;
      if events[0].Offer? {
        var node := events[0].node;
        OfferKeepsBase(codec, st, node, events[0].now);
        OfferUnfolds(codec, st, node, events[0].now);
        TipIsLater(st, node);
        ConservingBlocksDoNotDrift(codec, st.ledger, st.world, node.block, 0, t);
      } else {
        RefreshKeepsBase(st, events[0].epoch);
      }
      ConservingRunsDoNotDrift(codec, next, events[1..], t);
    }
  }

  /** Every run of conserving records conserves every token, whatever accounts it starts from. */
  lemma RunConserves(codec: Codec, st: ChainState, events: seq<Event>, t: Id)
    requires BaseInvariant(st) && Accepted(codec, st, events) && ConservingAlong(codec, st, events)
    ensures Total(Run(codec, st, events).0.world.accounts, t) == Total(st.world.accounts, t)
  {
    hide Run, Accepted, ConservingAlong, DriftAlong, BaseInvariant, Total;
    RunDrift(codec, st, events, t);
    ConservingRunsDoNotDrift(codec, st, events, t);
  }
}
