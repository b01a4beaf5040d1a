/** The miner: it keeps a copy-on-write overlay of the accounts, applies renewals and incoming transactions to it, and
    cuts the next block from the records the overlay has accepted. */
module Mining {
  import opened Numbers
  import opened Outcomes
  import opened ChainTypes
  import opened Bank
  import opened LedgerView
  import opened TxHandlers
  import opened BlockValidation
  import opened ChainSpec
  import opened Overlay
  import opened LateJoiner
  import CheckpointSafety
  import opened Renewals
  import Ouroboros

  /** What was prepared for one slot. */
  datatype SlotCache = SlotCache(slot: nat, isLeader: bool, renewals: seq<Record>)

  const NO_SLOT := SlotCache(0, false, [])

  datatype MinerState = MinerState(
    minerId: Id, overlay: Accounts, pending: seq<Record>, forward: seq<Record>,
    lastProducedSlot: nat, lastProducedBlockId: nat, cache: SlotCache)

  /** The chain as the miner sees it during one slot. */
  datatype View = View(codec: Codec, chain: ChainState, slot: nat) {
    function Cx(): Context {
      ContextOf(codec, chain.ledger, chain.world)
    }

    function Committed(): Accounts {
      chain.world.accounts
    }

    function BlockId(): nat {
      chain.ledger.Next()
    }
  }

  /** A record offered to the overlay: its signatures against the committed accounts, then its change. */
  function AddBuffer(v: View, leader: Id, overlay: Accounts, rec: Record): (Accounts, Status) {
    if ValidateTxSignatures(v.codec, v.Committed(), rec, leader, true).Failed? then (overlay, Failed(TxSignature))
    else ApplyBuffer(v.Cx(), v.Committed(), rec, overlay, v.BlockId(), v.slot)
  }

  function AddBuffers(v: View, leader: Id, overlay: Accounts, records: seq<Record>): (Accounts, Status)
    decreases |records|
  {
    if records == [] then (overlay, Done)
    else
      var (next, s) := AddBuffer(v, leader, overlay, records[0]);
      if s.Failed? then (next, s) else AddBuffers(v, leader, next, records[1..])
  }

  /** The renewals with the miner's signatures; `None` when signing fails. */
  function Signed(sign: Bytes -> Option<seq<Bytes>>, renewals: seq<Record>): Option<seq<Record>> {
    if renewals == [] then Some([])
    else
      match sign(renewals[0].data)
      case None => None
      case Some(signatures) =>
        match Signed(sign, renewals[1..])
        case None => None
        case Some(more) => Some([renewals[0].(signatures := renewals[0].signatures + signatures)] + more)
  }

  /** The renewals due at the tip, signed; `None` when they cannot be collected or signed. */
  function SignedRenewals(v: View, sign: Bytes -> Option<seq<Bytes>>, now: int): Option<seq<Record>> {
    match Collected(v.Cx(), v.Committed(), v.chain.checkpoint, now)
    case Err(_) => None
    case Ok(renewals) => Signed(sign, renewals)
  }

  /** What a miner does when it takes a transaction. */
  function AddTransaction(v: View, m: MinerState, rec: Record): (MinerState, Status) {
    var (overlay, s) := AddBuffer(v, m.minerId, m.overlay, rec);
    if s.Failed? then (m.(overlay := overlay), s) else (m.(overlay := overlay, pending := m.pending + [rec]), Done)
  }

  /** Preparing a slot: an empty overlay, the signed renewals, then the pending transactions again. */
  function PrepareSlot(v: View, m: MinerState, isLeader: bool, signed: Option<seq<Record>>): (MinerState, Status) {
    if !isLeader then (m.(cache := SlotCache(v.slot, false, [])), Done)
    else if signed.None? then (m.(overlay := map[], cache := NO_SLOT), Failed(Internal))
    else
      var (overlay, s) := AddBuffers(v, m.minerId, map[], signed.value + m.pending);
      if s.Failed? then (m.(overlay := overlay, cache := NO_SLOT), s)
      else (m.(overlay := overlay, cache := SlotCache(v.slot, true, signed.value)), Done)
  }

  /** The records of the next block and how many pending ones they include. */
  function TransactionSet(m: MinerState, maxTx: nat): (r: (seq<Record>, nat))
    ensures r.1 <= |m.pending| && r.0 == m.cache.renewals + m.pending[..r.1]
  {
    var renewals := |m.cache.renewals|;
    var cap := if maxTx == 0 then |m.pending| else if maxTx > renewals then maxTx - renewals else 0;
    var n := if |m.pending| <= cap then |m.pending| else cap;
    (m.cache.renewals + m.pending[..n], n)
  }

  function CreateBlock(v: View, leader: Id, records: seq<Record>, timestamp: int): Option<ChainNode> {
    if v.chain.ledger.nodes == [] then None
    else
      var last := v.chain.ledger.nodes[|v.chain.ledger.nodes| - 1];
      var block := Block(last.block.index + 1, timestamp, records, last.hash, 0, v.slot, leader,
                         last.block.txIndex + |last.block.records|);
      Some(ChainNode(block, v.codec.hashOf(block)))
  }

  /** What a miner with a prepared slot produces. */
  function Production(v: View, m: MinerState, productionTime: bool, timestamp: int, maxTx: nat): Result<Option<ChainNode>> {
    if !m.cache.isLeader || (m.cache.renewals == [] && m.pending == []) || !productionTime then Ok(None)
    else
      match CreateBlock(v, m.minerId, TransactionSet(m, maxTx).0, timestamp)
      case None => Err(LedgerRead)
      case Some(node) => Ok(Some(node))
  }

  /** The miner after a block: what did not fit is forwarded. */
  function AfterProduction(m: MinerState, maxTx: nat): MinerState {
    m.(pending := [], forward := m.forward + m.pending[TransactionSet(m, maxTx).1..])
  }

  /** Trying to produce a block: nothing in a slot noted as produced, a slot not prepared yet is prepared first. */
  function TryBlock(v: View, m: MinerState, isLeader: bool, signed: Option<seq<Record>>, productionTime: bool, timestamp: int,
                    maxTx: nat): (MinerState, Result<Option<ChainNode>>)
  {
    if m.lastProducedSlot == v.slot then (m, Ok(None))
    else
      var (ready, s) := if m.cache.slot == v.slot then (m, Done) else PrepareSlot(v, m, isLeader, signed);
      if s.Failed? then (ready, Err(s.error))
      else
        var r := Production(v, ready, productionTime, timestamp, maxTx);
        (if r.Ok? && r.value.Some? then AfterProduction(ready, maxTx) else ready, r)
  }

  /** After a block has been cut, trying again in its slot cuts another one, of the renewals alone, if and only if there are any
      and the block has not been noted as produced. */
  lemma SecondTryIff(v: View, m: MinerState, isLeader: bool, signed: Option<seq<Record>>, timestamp: int, maxTx: nat, noted: bool)
    requires TryBlock(v, m, isLeader, signed, true, timestamp, maxTx).1.Ok?
    requires TryBlock(v, m, isLeader, signed, true, timestamp, maxTx).1.value.Some?
    ensures var (after, first) := TryBlock(v, m, isLeader, signed, true, timestamp, maxTx);
      var again := TryBlock(v, if noted then after.(lastProducedSlot := first.value.value.block.slot) else after,
                            isLeader, signed, true, timestamp, maxTx).1;
      && first.value.value.block.slot == v.slot && again.Ok?
      && (again.value.Some? <==> !noted && after.cache.renewals != [])
      && (again.value.Some? ==> again.value.value.block.records == after.cache.renewals)
  {
    hide AddBuffers;
    var after := TryBlock(v, m, isLeader, signed, true, timestamp, maxTx).0;
    assert after.pending == [] && after.cache.renewals + after.pending[..0] == after.cache.renewals;
  }

  // ----- what the overlay stands for -----

  /** The block path applied to the prepared records would succeed, and lead to exactly what the overlay stands for. */
  ghost predicate Sound(v: View, m: MinerState) {
    var records := m.cache.renewals + m.pending;
    && LeavesEndedAlone(v.codec, records, {})
    && BlockRun(v.Cx(), v.Committed(), records, v.BlockId(), v.slot)
       == (Denotes(v.Committed(), m.overlay, Ended(v.codec, records)), Done)
  }

  lemma {:induction false} BlockRunJoins(cx: Context, b: Accounts, xs: seq<Record>, ys: seq<Record>, blockId: nat, slot: nat)
    ensures BlockRun(cx, b, xs + ys, blockId, slot)
         == var r := BlockRun(cx, b, xs, blockId, slot); if r.1.Failed? then r else BlockRun(cx, r.0, ys, blockId, slot)
    decreases |xs|
  {
    hide ApplyAccounts;
    if xs == [] {
      assert xs + ys == ys;
    } else {
      assert (xs + ys)[0] == xs[0] && (xs + ys)[1..] == xs[1..] + ys;
      match cx.codec.decode(xs[0]) {
        case None =>
        case Some(tx) =>
          if !tx.TxGenesis? {
            BlockRunJoins(cx, ApplyAccounts(cx, tx, b, blockId, slot, true).0, xs[1..], ys, blockId, slot);
          }
      }
    }
  }

  lemma {:induction false} EndedJoins(codec: Codec, xs: seq<Record>, ys: seq<Record>, before: set<Id>)
    ensures Ended(codec, xs + ys) == Ended(codec, xs) + Ended(codec, ys)
    ensures LeavesEndedAlone(codec, xs + ys, before)
       <==> LeavesEndedAlone(codec, xs, before) && LeavesEndedAlone(codec, ys, before + Ended(codec, xs))
    decreases |xs|
  {
    hide Touched;
    if xs == [] {
      assert xs + ys == ys && before + {} == before;
    } else {
      assert (xs + ys)[0] == xs[0] && (xs + ys)[1..] == xs[1..] + ys;
      match codec.decode(xs[0]) {
        case None =>
          EndedJoins(codec, xs[1..], ys, before);
          assert {} + Ended(codec, xs[1..]) == Ended(codec, xs[1..]);
        case Some(tx) =>
          EndedJoins(codec, xs[1..], ys, before + EndedBy(tx));
          assert before + EndedBy(tx) + Ended(codec, xs[1..]) == before + (EndedBy(tx) + Ended(codec, xs[1..]));
          assert EndedBy(tx) + Ended(codec, xs[1..]) + Ended(codec, ys) == EndedBy(tx) + Ended(codec, xs[1..] + ys);
      }
    }
  }

  lemma {:induction false} AddBuffersRun(v: View, leader: Id, overlay: Accounts, records: seq<Record>)
    requires AddBuffers(v, leader, overlay, records).1.Done?
    ensures OverlayRun(v.Cx(), v.Committed(), overlay, records, v.BlockId(), v.slot) == AddBuffers(v, leader, overlay, records)
    decreases |records|
  {
    hide ApplyBuffer, ValidateTxSignatures;
    if records != [] {
      AddBuffersRun(v, leader, AddBuffer(v, leader, overlay, records[0]).0, records[1..]);
    }
  }

  /** Offering two lists one after the other. */
  lemma {:induction false} AddPrefix(v: View, leader: Id, overlay: Accounts, xs: seq<Record>, ys: seq<Record>)
    ensures var r := AddBuffers(v, leader, overlay, xs);
      AddBuffers(v, leader, overlay, xs + ys) == if r.1.Failed? then r else AddBuffers(v, leader, r.0, ys)
    decreases |xs|
  {
    hide AddBuffer;
    if xs == [] {
      assert xs + ys == ys;
    } else {
      assert (xs + ys)[0] == xs[0] && (xs + ys)[1..] == xs[1..] + ys;
      AddPrefix(v, leader, AddBuffer(v, leader, overlay, xs[0]).0, xs[1..], ys);
    }
  }

  /** A slot prepared without error leaves a sound overlay. */
  lemma PreparedIsSound(v: View, m: MinerState, signed: seq<Record>)
    requires IdsMatch(v.Committed()) && LeavesEndedAlone(v.codec, signed + m.pending, {})
    requires PrepareSlot(v, m, true, Some(signed)).1.Done?
    ensures Sound(v, PrepareSlot(v, m, true, Some(signed)).0)
  {
    hide AddBuffers, OverlayRun, BlockRun, LeavesEndedAlone, Ended;
    var records := signed + m.pending;
    AddBuffersRun(v, m.minerId, map[], records);
    OverlayRunRefines(v.Cx(), v.Committed(), map[], {}, records, v.BlockId(), v.slot);
    assert Denotes(v.Committed(), map[], {}) == v.Committed();
    assert {} + Ended(v.codec, records) == Ended(v.codec, records);
  }

  // ----- accepted transactions -----

  lemma OneRecord(v: View, rec: Record)
    ensures Ended(v.codec, [rec]) == if v.codec.decode(rec).None? then {} else EndedBy(v.codec.decode(rec).value)
    ensures forall ended ::
      v.codec.decode(rec).Some? ==> (LeavesEndedAlone(v.codec, [rec], ended) <==>
        !v.codec.decode(rec).value.TxConfig? && ended !! Touched(v.codec.decode(rec).value))
  {
    hide Touched;
    assert [rec][1..] == [];
  }

  /** An accepted transaction keeps the overlay sound. */
  lemma AcceptedKeepsSound(v: View, m: MinerState, rec: Record)
    requires Sound(v, m) && IdsMatch(v.Committed()) && AddTransaction(v, m, rec).1.Done?
    requires LeavesEndedAlone(v.codec, [rec], Ended(v.codec, m.cache.renewals + m.pending))
    ensures Sound(v, AddTransaction(v, m, rec).0)
  {
    hide ApplyBuffer, OverlayRun, BlockRun, LeavesEndedAlone, Ended, Denotes, ValidateTxSignatures;
    var records := m.cache.renewals + m.pending;
    var ended := Ended(v.codec, records);
    assert m.cache.renewals + (m.pending + [rec]) == records + [rec];
    EndedJoins(v.codec, records, [rec], {});
    assert {} + ended == ended;
    BlockRunJoins(v.Cx(), v.Committed(), records, [rec], v.BlockId(), v.slot);
    OneBufferStep(v, m.overlay, rec);
    OverlayRunRefines(v.Cx(), v.Committed(), m.overlay, ended, [rec], v.BlockId(), v.slot);
  }

  lemma OneBufferStep(v: View, overlay: Accounts, rec: Record)
    ensures ApplyBuffer(v.Cx(), v.Committed(), rec, overlay, v.BlockId(), v.slot).1.Done? ==>
      OverlayRun(v.Cx(), v.Committed(), overlay, [rec], v.BlockId(), v.slot)
        == ApplyBuffer(v.Cx(), v.Committed(), rec, overlay, v.BlockId(), v.slot)
  {
    hide ApplyBuffer;
    assert [rec][1..] == [];
  }

  // ----- rejected transactions -----

  /** The native amount a record may move to the fee account besides its fee. */
  function AmountOf(tx: TypedTx): nat {
    match tx
    case TxDefault(_, _, _, amount, _, _, _) => amount
    case TxNewUser(_, _, amount, _, _, _) => amount
    case _ => 0
  }

  /** The fee account can take the record's amount and fee. */
  predicate FeeRoom(b: Accounts, tx: TypedTx) {
    tx.fee > 0 ==> tx.fee <= INT64_MAX && ID_FEE in b && BalanceOf(b, ID_FEE, ID_GENESIS) + AmountOf(tx) + tx.fee <= INT64_MAX
  }

  lemma TransferFailureKeeps(b: Accounts, from: Id, to: Id, token: Id, amount: u64, fee: u64)
    requires fee > 0 ==> ID_FEE in b && BalanceOf(b, ID_FEE, ID_GENESIS) + amount + fee <= INT64_MAX
    requires Transfer(b, from, to, token, amount, fee).1.Failed?
    ensures Transfer(b, from, to, token, amount, fee).0 == b
  {
    hide VerifySpendingPower;
  }

  lemma NewUserFailureKeeps(cx: Context, tx: TypedTx, b: Accounts, existing: Accounts, blockId: nat)
    requires tx.TxNewUser? && FeeRoom(b, tx) && NewUser(cx, tx, b, existing, blockId, true).1.Failed?
    ensures NewUser(cx, tx, b, existing, blockId, true).0 == b
  {
    hide CheckFee, CheckWallet;
    if CheckNewUser(cx, tx, b, existing, true).Done? {
      var wallet := cx.codec.userAccountOf(tx.meta).value.wallet.(balances := map[]);
      FundingSucceeds(b, tx.fromWalletId, Account.Account(tx.toWalletId, wallet, blockId), tx.amount, tx.fee);
    }
  }

  /** A sender with the means funds a new account without fail. */
  lemma FundingSucceeds(b: Accounts, from: Id, a: Account, amount: u64, fee: u64)
    requires a.id !in b && a.wallet.balances == map[] && VerifySpendingPower(b, from, ID_GENESIS, amount, fee).Done?
    requires fee > 0 ==> ID_FEE in b && BalanceOf(b, ID_FEE, ID_GENESIS) + amount + fee <= INT64_MAX
    ensures Transfer(b[a.id := a], from, a.id, ID_GENESIS, amount, fee).1.Done?
  {
  }

  lemma UpsertFailureKeeps(cx: Context, tx: TypedTx, id: Id, fee: u64, meta: Bytes, b: Accounts, blockId: nat)
    requires FeeRoom(b, tx) && fee == tx.fee && Upsert(cx, id, fee, meta, b, blockId, true).1.Failed?
    ensures Upsert(cx, id, fee, meta, b, blockId, true).0 == b
  {
    hide CheckFee, CheckWallet;
  }

  lemma GenesisRenewalFailureKeeps(cx: Context, tx: TypedTx, b: Accounts, blockId: nat)
    requires tx.TxRenewal? && FeeRoom(b, tx) && GenesisRenewal(cx, tx, b, blockId, true).1.Failed?
    ensures GenesisRenewal(cx, tx, b, blockId, true).0 == b
  {
    hide CheckFee, CheckGenesisWallet;
  }

  lemma EndUserFailureKeeps(cx: Context, tx: TypedTx, b: Accounts)
    requires tx.TxEndUser? && EndUser(cx, tx, b).1.Failed?
    ensures EndUser(cx, tx, b).0 == b
  {
  }

  /** A handler that fails has changed nothing, given room in the fee account. */
  lemma HandleFailureKeeps(cx: Context, tx: TypedTx, b: Accounts, existing: Accounts, blockId: nat)
    requires !tx.TxGenesis? && (FeeRoom(b, tx) || tx.TxEndUser?) && Handle(cx, tx, b, existing, blockId, true).1.Failed?
    ensures Handle(cx, tx, b, existing, blockId, true).0 == b
  {
    hide CheckFee, Transfer, NewUser, Upsert, GenesisRenewal, EndUser, CheckConfigUpdate;
    match tx {
      case TxDefault(token, from, to, amount, fee, _, _) =>
        if CheckFee(cx, tx).Done? {
          TransferFailureKeeps(b, from, to, token, amount, fee);
        }
      case TxNewUser(_, _, _, _, _, _) => NewUserFailureKeeps(cx, tx, b, existing, blockId);
      case TxConfig(_, _, _) =>
      case TxUserUpdate(id, fee, meta, _) => UpsertFailureKeeps(cx, tx, id, fee, meta, b, blockId);
      case TxRenewal(id, fee, meta) =>
        if id == ID_GENESIS {
          GenesisRenewalFailureKeeps(cx, tx, b, blockId);
        } else {
          UpsertFailureKeeps(cx, tx, id, fee, meta, b, blockId);
        }
      case TxEndUser(_, _, _) => EndUserFailureKeeps(cx, tx, b);
    }
  }

  /** Copying accounts into the overlay changes nothing it stands for, however far it gets. */
  lemma {:induction false} SeedingKeeps(b: Accounts, committed: Accounts, ids: seq<Id>, ended: set<Id>)
    requires IdsMatch(committed)
    ensures var seeded := SeedAll(b, committed, ids).0;
      && Denotes(committed, seeded, ended) == Denotes(committed, b, ended)
      && b.Keys <= seeded.Keys && seeded.Keys <= b.Keys + (set i | i in ids)
    decreases |ids|
  {
    if ids != [] {
      var (one, s) := SeedFromCommitted(b, committed, ids[0]);
      assert Denotes(committed, one, ended) == Denotes(committed, b, ended);
      if s.Done? {
        SeedingKeeps(one, committed, ids[1..], ended);
      }
    }
  }

  lemma RejectedKeepsMeaning(v: View, overlay: Accounts, rec: Record, ended: set<Id>)
    requires IdsMatch(v.Committed())
    requires v.codec.decode(rec).Some? ==> !v.codec.decode(rec).value.TxConfig?
    requires v.codec.decode(rec).Some? ==> FeeRoom(Denotes(v.Committed(), overlay, ended), v.codec.decode(rec).value)
    requires ApplyBuffer(v.Cx(), v.Committed(), rec, overlay, v.BlockId(), v.slot).1.Failed?
    ensures Denotes(v.Committed(), ApplyBuffer(v.Cx(), v.Committed(), rec, overlay, v.BlockId(), v.slot).0, ended)
         == Denotes(v.Committed(), overlay, ended)
  {
    hide Handle, SeedAll, Idempotency, IdsMatch;
    if v.codec.decode(rec).Some? && !v.codec.decode(rec).value.TxGenesis? {
      var tx := v.codec.decode(rec).value;
      var (seeded, s) := SeedAll(overlay, v.Committed(), SeedIds(tx));
      SeedingKeeps(overlay, v.Committed(), SeedIds(tx), ended);
      SeedsAreTouched(tx);
      if s.Done? && Handle(v.Cx(), tx, seeded, v.Committed(), v.BlockId(), true).1.Failed? {
        SeededFeeRoom(v, overlay, tx, ended);
        HandleFailureKeeps(v.Cx(), tx, seeded, v.Committed(), v.BlockId());
      }
    }
  }

  lemma SeededFeeRoom(v: View, overlay: Accounts, tx: TypedTx, ended: set<Id>)
    requires IdsMatch(v.Committed()) && !tx.TxGenesis? && !tx.TxConfig?
    requires FeeRoom(Denotes(v.Committed(), overlay, ended), tx)
    requires SeedAll(overlay, v.Committed(), SeedIds(tx)).1.Done?
    ensures FeeRoom(SeedAll(overlay, v.Committed(), SeedIds(tx)).0, tx) || (tx.TxEndUser? && tx.fee > 0)
  {
    hide SeedAll, IdsMatch;
    SeedingKeepsMeaning(overlay, v.Committed(), SeedIds(tx), ended);
    var seeded := SeedAll(overlay, v.Committed(), SeedIds(tx)).0;
    if tx.fee > 0 && !tx.TxEndUser? {
      FeeIsSeeded(tx);
      assert ID_FEE in seeded;
      assert Denotes(v.Committed(), seeded, ended)[ID_FEE] == seeded[ID_FEE];
    }
  }

  lemma FeeIsSeeded(tx: TypedTx)
    requires tx.fee > 0 && !tx.TxGenesis? && !tx.TxConfig? && !tx.TxEndUser?
    ensures ID_FEE in SeedIds(tx)
  {
  }

  /** A rejected transaction may leave copies in the overlay but changes nothing it stands for. */
  lemma RejectedKeepsSound(v: View, m: MinerState, rec: Record)
    requires Sound(v, m) && IdsMatch(v.Committed()) && AddTransaction(v, m, rec).1.Failed?
    requires v.codec.decode(rec).Some? ==>
      !v.codec.decode(rec).value.TxConfig? &&
      FeeRoom(Denotes(v.Committed(), m.overlay, Ended(v.codec, m.cache.renewals + m.pending)), v.codec.decode(rec).value)
    ensures Sound(v, AddTransaction(v, m, rec).0) && AddTransaction(v, m, rec).0.pending == m.pending
  {
    hide ApplyBuffer, BlockRun, LeavesEndedAlone, Ended, Denotes, ValidateTxSignatures, FeeRoom;
    if ValidateTxSignatures(v.codec, v.Committed(), rec, m.minerId, true).Done? {
      RejectedKeepsMeaning(v, m.overlay, rec, Ended(v.codec, m.cache.renewals + m.pending));
    }
  }

  // ----- whole slots -----

  /** What the miner's clients keep to during the slot: no configuration records, none that ends the fee account, and amounts
      the fee account has room for. */
  predicate Fair(v: View, m: MinerState, rec: Record) {
    var records := m.cache.renewals + m.pending;
    v.codec.decode(rec).Some? ==>
      var tx := v.codec.decode(rec).value;
      && !tx.TxConfig? && !(tx.TxEndUser? && tx.walletId == ID_FEE)
      && (LeavesEndedAlone(v.codec, records, {}) ==> FeeRoom(Denotes(v.Committed(), m.overlay, Ended(v.codec, records)), tx))
  }

  /** The miner after the offered transactions, accepted or not. */
  function TakeAll(v: View, m: MinerState, offered: seq<Record>): MinerState
    decreases |offered|
  {
    if offered == [] then m else TakeAll(v, AddTransaction(v, m, offered[0]).0, offered[1..])
  }

  predicate AllFair(v: View, m: MinerState, offered: seq<Record>)
    decreases |offered|
  {
    offered == [] || (Fair(v, m, offered[0]) && AllFair(v, AddTransaction(v, m, offered[0]).0, offered[1..]))
  }

  /** Among the prepared records, those that pass the block path are told by which accounts they touch. */
  ghost predicate Predictable(v: View, m: MinerState) {
    var records := m.cache.renewals + m.pending;
    && NoConfig(v.codec, records) && KeepsFeeAccount(v.codec, records)
    && (LeavesEndedAlone(v.codec, records, {}) ==> Sound(v, m))
    && forall n: nat | n <= |records| :: PassesIff(v, records[..n])
  }

  ghost predicate PassesIff(v: View, records: seq<Record>) {
    BlockRun(v.Cx(), v.Committed(), records, v.BlockId(), v.slot).1.Done? <==> LeavesEndedAlone(v.codec, records, {})
  }

  lemma {:induction false} OverlayRunPrefix(cx: Context, committed: Accounts, overlay: Accounts, records: seq<Record>, n: nat, blockId: nat, slot: nat)
    requires n <= |records| && OverlayRun(cx, committed, overlay, records, blockId, slot).1.Done?
    ensures OverlayRun(cx, committed, overlay, records[..n], blockId, slot).1.Done?
    decreases n
  {
    hide ApplyBuffer;
    if n > 0 {
      OverlayRunPrefix(cx, committed, ApplyBuffer(cx, committed, records[0], overlay, blockId, slot).0, records[1..], n - 1, blockId, slot);
      assert records[..n][1..] == records[1..][..n - 1];
    }
  }

  /** A slot prepared without error is predictable. */
  lemma PreparedIsPredictable(v: View, m: MinerState, signed: seq<Record>)
    requires IdsMatch(v.Committed()) && NoConfig(v.codec, signed + m.pending) && KeepsFeeAccount(v.codec, signed + m.pending)
    requires PrepareSlot(v, m, true, Some(signed)).1.Done?
    ensures Predictable(v, PrepareSlot(v, m, true, Some(signed)).0)
  {
    hide AddBuffers, OverlayRun, BlockRun, LeavesEndedAlone, Sound, IdsMatch;
    var records := signed + m.pending;
    AddBuffersRun(v, m.minerId, map[], records);
    if LeavesEndedAlone(v.codec, records, {}) {
      PreparedIsSound(v, m, signed);
    }
    forall n: nat | n <= |records|
      ensures PassesIff(v, records[..n])
    {
      OverlayRunPrefix(v.Cx(), v.Committed(), map[], records, n, v.BlockId(), v.slot);
      OverlayAgreesIff(v.Cx(), v.Committed(), records[..n], v.slot);
    }
  }

  /** What a block path that has passed says about its accounts. */
  lemma {:induction false} BlockRunTraces(cx: Context, committed: Accounts, b: Accounts, records: seq<Record>, slot: nat)
    requires FromHere(committed, b, cx.ledger.Next()) && BlockRun(cx, b, records, cx.ledger.Next(), slot).1.Done?
    requires KeepsFeeAccount(cx.codec, records)
    ensures FromHere(committed, BlockRun(cx, b, records, cx.ledger.Next(), slot).0, cx.ledger.Next())
    ensures Ended(cx.codec, records) <= committed.Keys && ID_FEE !in Ended(cx.codec, records)
    decreases |records|
  {
    hide Handle, Idempotency;
    if records != [] {
      var tx := cx.codec.decode(records[0]).value;
      var next := ApplyAccounts(cx, tx, b, cx.ledger.Next(), slot, true).0;
      CheckpointSafety.HandleStamps(cx, tx, b, map[], cx.ledger.Next());
      StampsFromHere(committed, b, next, cx.ledger.Next());
      if tx.TxEndUser? {
        EndedWasThere(cx, tx, committed, b);
      }
      assert forall i | 0 <= i < |records[1..]| :: records[1..][i] == records[i + 1];
      BlockRunTraces(cx, committed, next, records[1..], slot);
    }
  }

  lemma StampsFromHere(committed: Accounts, b: Accounts, after: Accounts, blockId: nat)
    requires FromHere(committed, b, blockId) && CheckpointSafety.StampedOrKept(b, after, blockId)
    ensures FromHere(committed, after, blockId)
  {
  }

  /** Whether an accepted transaction lets the block pass. */
  lemma AcceptedPassesIff(v: View, m: MinerState, rec: Record)
    requires Predictable(v, m) && IdsMatch(v.Committed()) && AddTransaction(v, m, rec).1.Done? && Fair(v, m, rec)
    ensures PassesIff(v, m.cache.renewals + m.pending + [rec])
  {
    hide ApplyBuffer, OverlayRun, BlockRun, LeavesEndedAlone, Ended, Denotes, ValidateTxSignatures, FeeRoom, IdsMatch;
    var records := m.cache.renewals + m.pending;
    var ended := Ended(v.codec, records);
    assert records[..|records|] == records;
    EndedJoins(v.codec, records, [rec], {});
    assert {} + ended == ended;
    BlockRunJoins(v.Cx(), v.Committed(), records, [rec], v.BlockId(), v.slot);
    assert PassesIff(v, records[..|records|]);
    if LeavesEndedAlone(v.codec, records, {}) {
      CommittedFromHere(v);
      BlockRunTraces(v.Cx(), v.Committed(), v.Committed(), records, v.slot);
      OneBufferStep(v, m.overlay, rec);
      OneIsPlain(v.codec, rec);
      OverlayRunIff(v.Cx(), v.Committed(), m.overlay, ended, [rec], v.slot);
    }
  }

  lemma CommittedFromHere(v: View)
    ensures FromHere(v.Committed(), v.Committed(), v.BlockId())
  {
  }

  lemma OneIsPlain(codec: Codec, rec: Record)
    ensures (codec.decode(rec).Some? ==>
      var tx := codec.decode(rec).value; !tx.TxConfig? && !(tx.TxEndUser? && tx.walletId == ID_FEE)) <==>
      NoConfig(codec, [rec]) && KeepsFeeAccount(codec, [rec])
  {
    assert [rec][0] == rec;
  }

  lemma AcceptedKeepsPredictable(v: View, m: MinerState, rec: Record)
    requires Predictable(v, m) && IdsMatch(v.Committed()) && AddTransaction(v, m, rec).1.Done? && Fair(v, m, rec)
    ensures Predictable(v, AddTransaction(v, m, rec).0)
  {
    hide AddBuffer, BlockRun, LeavesEndedAlone, Ended, Denotes, FeeRoom, IdsMatch, Sound, PassesIff;
    var records := m.cache.renewals + m.pending;
    AcceptedPassesIff(v, m, rec);
    assert m.cache.renewals + (m.pending + [rec]) == records + [rec];
    OneIsPlain(v.codec, rec);
    EndedJoins(v.codec, records, [rec], {});
    assert {} + Ended(v.codec, records) == Ended(v.codec, records);
    if LeavesEndedAlone(v.codec, records + [rec], {}) {
      AcceptedKeepsSound(v, m, rec);
    }
    forall n: nat | n <= |records + [rec]|
      ensures PassesIff(v, (records + [rec])[..n])
    {
      if n <= |records| {
        assert (records + [rec])[..n] == records[..n];
      } else {
        assert (records + [rec])[..n] == records + [rec];
      }
    }
  }

  lemma RejectedKeepsPredictable(v: View, m: MinerState, rec: Record)
    requires Predictable(v, m) && IdsMatch(v.Committed()) && AddTransaction(v, m, rec).1.Failed? && Fair(v, m, rec)
    ensures Predictable(v, AddTransaction(v, m, rec).0)
  {
    hide AddBuffer, BlockRun, LeavesEndedAlone, Ended, Denotes, FeeRoom, IdsMatch, Sound, PassesIff;
    if LeavesEndedAlone(v.codec, m.cache.renewals + m.pending, {}) {
      if v.codec.decode(rec).Some? {
        RejectedKeepsSound(v, m, rec);
      } else {
        UndecodedKeeps(v, m, rec);
      }
    }
  }

  lemma UndecodedKeeps(v: View, m: MinerState, rec: Record)
    requires v.codec.decode(rec).None?
    ensures AddTransaction(v, m, rec).0 == m
  {
    hide ValidateTxSignatures;
  }

  lemma {:induction false} TakingKeepsPredictable(v: View, m: MinerState, offered: seq<Record>)
    requires Predictable(v, m) && IdsMatch(v.Committed()) && AllFair(v, m, offered)
    ensures Predictable(v, TakeAll(v, m, offered)) && TakeAll(v, m, offered).cache == m.cache
    decreases |offered|
  {
    hide Predictable, AddBuffer, Fair;
    if offered != [] {
      if AddTransaction(v, m, offered[0]).1.Done? {
        AcceptedKeepsPredictable(v, m, offered[0]);
      } else {
        RejectedKeepsPredictable(v, m, offered[0]);
      }
      TakingKeepsPredictable(v, AddTransaction(v, m, offered[0]).0, offered[1..]);
    }
  }

  /** A block cut from a predictable slot applies, its records passing the handlers of the strict block path one after another,
      if and only if none of them touches an account that an earlier one ends, whatever is left out of the block. */
  lemma BlockAppliesIff(v: View, m: MinerState, maxTx: nat)
    requires Predictable(v, m)
    ensures var records := TransactionSet(m, maxTx).0;
      && NoConfig(v.codec, records)
      && (BlockRun(v.Cx(), v.Committed(), records, v.BlockId(), v.slot).1.Done? <==> LeavesEndedAlone(v.codec, records, {}))
  {
    hide BlockRun, LeavesEndedAlone, Sound;
    var all, records := m.cache.renewals + m.pending, TransactionSet(m, maxTx).0;
    assert records == all[..|records|];
    assert PassesIff(v, all[..|records|]);
  }

  /** From preparing the slot, through any fair transactions, to the block: its records apply strictly if and only if none of
      them touches an account that an earlier one ends. */
  lemma SlotYieldsValidRecords(v: View, m: MinerState, signed: seq<Record>, offered: seq<Record>, maxTx: nat)
    requires IdsMatch(v.Committed()) && NoConfig(v.codec, signed + m.pending) && KeepsFeeAccount(v.codec, signed + m.pending)
    requires PrepareSlot(v, m, true, Some(signed)).1.Done?
    requires AllFair(v, PrepareSlot(v, m, true, Some(signed)).0, offered)
    ensures var last := TakeAll(v, PrepareSlot(v, m, true, Some(signed)).0, offered); var records := TransactionSet(last, maxTx).0;
      && last.cache.renewals == signed
      && (BlockRun(v.Cx(), v.Committed(), records, v.BlockId(), v.slot).1.Done? <==> LeavesEndedAlone(v.codec, records, {}))
  {
    hide Predictable, BlockRun, AllFair, LeavesEndedAlone, AddBuffers, NoConfig, KeepsFeeAccount, IdsMatch;
    var prepared := PrepareSlot(v, m, true, Some(signed)).0;
    PreparedIsPredictable(v, m, signed);
    TakingKeepsPredictable(v, prepared, offered);
    BlockAppliesIff(v, TakeAll(v, prepared, offered), maxTx);
  }

  // ----- the block -----

  /** The transaction set keeps within the block limit unless the renewals alone exceed it; then it is the renewals, and
      the validator accepts them exactly when they are renewal records only. */
  lemma TransactionSetWithinLimitIff(m: MinerState, config: BlockChainConfig)
    ensures var chosen := TransactionSet(m, config.maxTransactionsPerBlock);
      WithinLimit(config, chosen.0) <==>
        config.maxTransactionsPerBlock == 0 || |m.cache.renewals| <= config.maxTransactionsPerBlock ||
        forall i | 0 <= i < |m.cache.renewals| :: m.cache.renewals[i].recordType == T_RENEWAL
  {
    var max := config.maxTransactionsPerBlock;
    if max != 0 && |m.cache.renewals| > max {
      assert m.cache.renewals + m.pending[..0] == m.cache.renewals;
    }
  }

  /** The created block continues the chain: index, previous hash and transaction count are those validation demands. */
  lemma CreatedBlockContinues(v: View, leader: Id, records: seq<Record>, timestamp: int)
    requires v.chain.ledger.nodes != []
    requires v.chain.ledger.nodes[|v.chain.ledger.nodes| - 1].block.index + 1 == v.chain.ledger.Next()
    ensures var node := CreateBlock(v, leader, records, timestamp).value;
      && v.codec.hashOf(node.block) == node.hash
      && CheckSequence(v.chain.ledger, node.block).Done?
      && node.block.index == v.BlockId() && node.block.slot == v.slot && node.block.records == records
  {
  }

  /** For the leader of the slot, producing in time, validators accept the created block exactly when it holds the renewals
      that are due and keeps the block limit and no two of its records share an idempotency key: the overlay does not look
      for duplicates among the pending transactions. */
  lemma CreatedBlockAcceptedIff(v: View, leader: Id, records: seq<Record>, timestamp: int, now: int)
    requires v.chain.ledger.nodes != []
    requires v.chain.ledger.nodes[|v.chain.ledger.nodes| - 1].block.index + 1 == v.chain.ledger.Next()
    requires v.chain.world.consensus.schedule.IsSet() && v.chain.world.config.Some?
    requires var node := CreateBlock(v, leader, records, timestamp).value;
      && ValidLeader(v.codec, v.chain.world.consensus, node.block)
      && Ouroboros.ValidBlockTiming(v.chain.world.consensus.schedule, timestamp, v.slot)
    ensures var node := CreateBlock(v, leader, records, timestamp).value;
      var deadline := MaxBlockIdForRenewal(v.chain.ledger, v.chain.world.config, v.chain.checkpoint, v.BlockId(), now);
      ValidateNormalBlock(v.codec, v.chain.ledger, v.Committed(), v.chain.world.config, v.chain.world.consensus,
                          v.chain.checkpoint, node, true, now).Done? <==>
        (&& deadline.Ok? && RenewalsComplete(v.codec, v.Committed(), deadline.value, records)
         && WithinLimit(v.chain.world.config.value, records) && KeysDistinct(v.codec, records))
  {
    hide ValidLeader, MaxBlockIdForRenewal, RenewalsComplete, WithinLimit, KeysDistinct, CheckSequence;
    CreatedBlockContinues(v, leader, records, timestamp);
  }

  // ----- the chain applies the block -----

  /** The signatures of the records pass one after another, each against the accounts its predecessors left. */
  predicate SignedInTurn(codec: Codec, l: Ledger, w: World, block: Block, i: nat)
    requires i <= |block.records|
    decreases |block.records| - i
  {
    i == |block.records| ||
    (ValidateTxSignatures(codec, w.accounts, block.records[i], block.slotLeader, true).Done? &&
     SignedInTurn(codec, l, ProcessRecord(codec, l, w, block.records[i], block, true).0, block, i + 1))
  }

  /** A block whose records the handlers accept and whose signatures hold is processed by the chain, with the accounts that
      the handlers lead to. */
  lemma {:induction false} RecordsAreProcessed(codec: Codec, l: Ledger, w: World, block: Block, i: nat)
    requires i <= |block.records| && NoConfig(codec, block.records) && SignedInTurn(codec, l, w, block, i)
    requires BlockRun(ContextOf(codec, l, w), w.accounts, block.records[i..], block.index, block.slot).1.Done?
    ensures ProcessRecords(codec, l, w, block, i, true)
         == (w.(accounts := BlockRun(ContextOf(codec, l, w), w.accounts, block.records[i..], block.index, block.slot).0), Done)
    decreases |block.records| - i
  {
    hide ApplyAccounts, ValidateTxSignatures;
    if i < |block.records| {
      assert block.records[i..][0] == block.records[i] && block.records[i..][1..] == block.records[i + 1..];
      var next := ProcessRecord(codec, l, w, block.records[i], block, true).0;
      assert ContextOf(codec, l, next) == ContextOf(codec, l, w);
      RecordsAreProcessed(codec, l, next, block, i + 1);
    }
  }
}
