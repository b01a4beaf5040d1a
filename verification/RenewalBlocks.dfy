/** From collecting renewals to the block: what the producer prepares is what every validator demands. */
module RenewalBlocks {
  import opened Numbers
  import opened Outcomes
  import opened ChainTypes
  import opened Bank
  import opened BalanceBounds
  import opened LedgerView
  import opened TxHandlers
  import opened TxIdempotency
  import opened BlockValidation
  import opened ChainSpec
  import opened Overlay
  import opened AccountCodec
  import opened Anchoring
  import opened Archive
  import opened BinaryCodec
  import opened ChainCodec
  import opened Renewals
  import opened RenewalAgreement
  import opened RenewalOrder
  import LateJoiner
  import opened Mining
  import opened Runs
  import opened Supply
  import opened TxFees

  // ----- signing -----

  lemma {:induction false} SigningKeepsData(sign: Bytes -> Option<seq<Bytes>>, records: seq<Record>)
    requires Signed(sign, records).Some?
    ensures var signed := Signed(sign, records).value;
      |signed| == |records| && forall i | 0 <= i < |records| :: signed[i] == records[i].(signatures := signed[i].signatures)
    decreases |records|
  {
    if records != [] {
      SigningKeepsData(sign, records[1..]);
    }
  }

  lemma SignedRecordsOf(cx: Context, b: Accounts, ids: seq<Id>, sign: Bytes -> Option<seq<Bytes>>)
    requires Due(cx, b, ids) && CreateAll(cx, b, ids).Ok? && Signed(sign, CreateAll(cx, b, ids).value).Some?
    ensures CollectedFor(cx, b, ids, Signed(sign, CreateAll(cx, b, ids).value).value)
  {
    hide CreateAll, Signed, RenewalTx, HoldsMeta, WalletOk, BoundedWallet, MinFee;
    CreateAllMeaning(cx, b, ids);
    var records := CreateAll(cx, b, ids).value;
    SigningKeepsData(sign, records);
    var signed := Signed(sign, records).value;
    forall i | 0 <= i < |ids|
      ensures RenewalTx(cx, b, ids[i]).Ok? && cx.codec.decode(signed[i]) == Some(RenewalTx(cx, b, ids[i]).value)
    {
      assert CreateRenewal(cx, b, ids[i]) == Ok(records[i]) && Sane(cx, b, ids[i]);
      assert signed[i] == cx.codec.encode(RenewalTx(cx, b, ids[i]).value).(signatures := signed[i].signatures);
    }
  }

  // ----- what validators demand -----

  /** The collected records renew or end exactly the accounts past the deadline; with further records added, the block meets
      the renewal rule exactly when those are allowed by themselves. */
  lemma CollectedIsComplete(cx: Context, b: Accounts, deadline: nat, records: seq<Record>, extra: seq<Record>)
    requires CollectedFor(cx, b, Sorted(IdsBefore(b, deadline)), records)
    ensures RenewedIn(cx.codec, records) == IdsBefore(b, deadline)
    ensures RenewalsComplete(cx.codec, b, deadline, records + extra)
       <==> forall i | 0 <= i < |extra| :: RenewalAllowed(cx.codec, b, deadline, extra[i])
  {
    hide RenewalTx, Sorted, RenewalAllowed;
    var ids := Sorted(IdsBefore(b, deadline));
    forall i | 0 <= i < |ids|
      ensures RenewalIdOf(cx.codec, records[i]) == Some(ids[i]) && RenewalAllowed(cx.codec, b, deadline, records[i])
    {
      NotTooEarly(cx, b, deadline, ids[i], records[i]);
    }
    forall id | id in IdsBefore(b, deadline)
      ensures id in RenewedIn(cx.codec, records) && id in RenewedIn(cx.codec, records + extra)
    {
      assert id in ids;
      var i :| 0 <= i < |ids| && ids[i] == id;
      assert RenewalIdOf(cx.codec, records[i]) == Some(id) && (records + extra)[i] == records[i];
    }
    var all := records + extra;
    assert forall i | 0 <= i < |extra| :: all[|records| + i] == extra[i];
    assert forall i | |records| <= i < |all| :: all[i] == extra[i - |records|];
  }

  /** An account past the deadline is old enough for its record. */
  lemma NotTooEarly(cx: Context, b: Accounts, deadline: nat, id: Id, rec: Record)
    requires id in IdsBefore(b, deadline)
    requires RenewalTx(cx, b, id).Ok? && cx.codec.decode(rec) == Some(RenewalTx(cx, b, id).value)
    ensures RenewalIdOf(cx.codec, rec) == Some(id) && RenewalAllowed(cx.codec, b, deadline, rec)
  {
    hide RenewalTx;
  }

  /** Collected records have no idempotency keys. */
  lemma CollectedHasNoKeys(cx: Context, b: Accounts, ids: seq<Id>, records: seq<Record>, extra: seq<Record>)
    requires CollectedFor(cx, b, ids, records)
    ensures KeysDistinct(cx.codec, records + extra) <==> KeysDistinct(cx.codec, extra)
  {
    hide RenewalTx;
    var all := records + extra;
    forall i | 0 <= i < |records|
      ensures KeyOf(cx.codec, all[i]).None?
    {
      assert RenewalTx(cx, b, ids[i]).Ok?;
    }
    if KeysDistinct(cx.codec, extra) {
      forall i, j | 0 <= i < j < |all| && KeyOf(cx.codec, all[i]).Some?
        ensures KeyOf(cx.codec, all[i]) != KeyOf(cx.codec, all[j])
      {
        assert all[i] == extra[i - |records|] && all[j] == extra[j - |records|];
      }
    }
    if KeysDistinct(cx.codec, all) {
      forall i, j | 0 <= i < j < |extra| && KeyOf(cx.codec, extra[i]).Some?
        ensures KeyOf(cx.codec, extra[i]) != KeyOf(cx.codec, extra[j])
      {
        assert extra[i] == all[|records| + i] && extra[j] == all[|records| + j];
      }
    }
  }

  // ----- the overlay -----

  /** With valid signatures, offering records to the overlay comes down to the overlay run. */
  lemma {:induction false} ValidlySignedRun(v: View, leader: Id, overlay: Accounts, records: seq<Record>)
    requires forall i | 0 <= i < |records| :: ValidateTxSignatures(v.codec, v.Committed(), records[i], leader, true).Done?
    ensures AddBuffers(v, leader, overlay, records) == OverlayRun(v.Cx(), v.Committed(), overlay, records, v.BlockId(), v.slot)
    decreases |records|
  {
    hide ApplyBuffer, ValidateTxSignatures;
    if records != [] {
      ValidlySignedRun(v, leader, AddBuffer(v, leader, overlay, records[0]).0, records[1..]);
    }
  }

  // ----- the agreement -----

  /** A chain as whole runs leave it, with room in the fee account for the fees that are due. */
  ghost predicate Settled(v: View, deadline: nat) {
    var b := v.Committed();
    && Bounded(b) && Anchored(v.codec, v.chain.ledger, b) && ID_FEE in b && v.chain.world.config.Some?
    && (forall id | id in IdsBefore(b, deadline) :: Carried(v.Cx(), b, id))
    && BalanceOf(b, ID_FEE, ID_GENESIS) + TotalFees(v.Cx(), b, Sorted(IdsBefore(b, deadline))) <= INT64_MAX
  }

  ghost predicate DuePass(v: View, deadline: nat) {
    forall id | id in IdsBefore(v.Committed(), deadline) :: PassesAmong(v.Cx(), v.Committed(), IdsBefore(v.Committed(), deadline), id)
  }

  lemma SettledMakesDue(v: View, deadline: nat)
    requires Settled(v, deadline)
    ensures Due(v.Cx(), v.Committed(), Sorted(IdsBefore(v.Committed(), deadline))) && IdsMatch(v.Committed())
    ensures Midway(v.Cx(), v.Committed(), map[], [], Sorted(IdsBefore(v.Committed(), deadline)))
  {
    hide Sorted, Sane, Carried, HoldsMeta, WalletOk, BoundedWallet, TotalFees, Anchored;
    var b := v.Committed();
    var ids := Sorted(IdsBefore(b, deadline));
    SortedIncreases(IdsBefore(b, deadline));
    forall i | 0 <= i < |ids|
      ensures Sane(v.Cx(), b, ids[i])
    {
      assert ids[i] in ids;
      InvariantsMakeSane(v.Cx(), b, ids[i]);
    }
    assert b + map[] == b;
    NothingDone(v.Cx(), b);
  }

  lemma NothingDone(cx: Context, b: Accounts)
    requires ID_FEE in b
    ensures Adds(b[ID_FEE], b[ID_FEE], OnlyNative(Credited(cx, b, [])))
    ensures ID_RECYCLE in b ==> Adds(b[ID_RECYCLE], b[ID_RECYCLE], GainedOf(cx, b, []))
  {
  }

  /** Collecting succeeds exactly when every due account's renewal can be made. */
  lemma CollectingSucceedsIff(v: View, deadline: nat)
    requires Settled(v, deadline)
    ensures CreateAll(v.Cx(), v.Committed(), Sorted(IdsBefore(v.Committed(), deadline))).Ok?
       <==> forall id | id in IdsBefore(v.Committed(), deadline) :: Creatable(v.Cx(), v.Committed(), id)
  {
    hide Settled, Sorted, Sane, CreateAll, Creatable, IdsBefore, RenewalTx, Midway, IdsMatch;
    var b := v.Committed();
    var ids := Sorted(IdsBefore(b, deadline));
    SettledMakesDue(v, deadline);
    CreateAllMeaning(v.Cx(), b, ids);
    forall i | 0 <= i < |ids|
      ensures CreateRenewal(v.Cx(), b, ids[i]).Ok? <==> Creatable(v.Cx(), b, ids[i])
    {
      assert Sane(v.Cx(), b, ids[i]);
      CreationSucceedsIff(v.Cx(), b, ids[i]);
    }
    assert forall id | id in IdsBefore(b, deadline) :: id in ids;
  }

  /** The miner can sign whatever it collects, and its signatures are those of the leader's account. */
  ghost predicate SigningWorks(v: View, leader: Id, sign: Bytes -> Option<seq<Bytes>>, now: int) {
    var collected := Collected(v.Cx(), v.Committed(), v.chain.checkpoint, now);
    collected.Ok? ==>
      && Signed(sign, collected.value).Some?
      && forall i | 0 <= i < |Signed(sign, collected.value).value| ::
           ValidateTxSignatures(v.codec, v.Committed(), Signed(sign, collected.value).value[i], leader, true).Done?
  }

  /** A leader prepares its slot exactly when the record of every due account passes behind those collected before it and the
      pending transactions pass again on top of the renewals. What it prepared renews exactly the accounts every validator
      demands and leaves only the transactions besides the renewals to be judged. The renewals by themselves pass the handlers
      of the strict block path one after another exactly when the recycle account is not ended before another account; and
      with pending transactions that neither set the configuration nor end the fee account, the block path takes exactly those
      of the prepared records that touch no ended account. */
  lemma ProducerAgrees(v: View, m: MinerState, now: int, sign: Bytes -> Option<seq<Bytes>>, extra: seq<Record>)
    requires v.chain.world.config.Some? && Settled(v, Deadline(v.Cx(), v.chain.checkpoint, now).value)
    requires SigningWorks(v, m.minerId, sign, now)
    ensures var deadline := Deadline(v.Cx(), v.chain.checkpoint, now).value;
      var (alone, a) := PrepareSlot(v, m.(pending := []), true, SignedRenewals(v, sign, now));
      var (prepared, s) := PrepareSlot(v, m, true, SignedRenewals(v, sign, now));
      && (a.Done? <==> DuePass(v, deadline))
      && (s.Done? <==> DuePass(v, deadline) && AddBuffers(v, m.minerId, alone.overlay, m.pending).1.Done?)
      && (s.Done? ==>
           && (NoConfig(v.codec, m.pending) && LateJoiner.KeepsFeeAccount(v.codec, m.pending) ==> Predictable(v, prepared))
           && (LeavesEndedAlone(v.codec, prepared.cache.renewals, {}) <==>
                 !RecycleEndsFirst(v.Cx(), v.Committed(), IdsBefore(v.Committed(), deadline)))
           && RenewedIn(v.codec, prepared.cache.renewals) == IdsBefore(v.Committed(), deadline)
           && (RenewalsComplete(v.codec, v.Committed(), deadline, prepared.cache.renewals + extra) <==>
                 forall i | 0 <= i < |extra| :: RenewalAllowed(v.codec, v.Committed(), deadline, extra[i]))
           && (KeysDistinct(v.codec, prepared.cache.renewals + extra) <==> KeysDistinct(v.codec, extra)))
  {
    hide Settled, Sorted, Sane, CreateAll, IdsBefore, RenewalTx, IdsMatch, MaxBlockIdForRenewal, Signed, Sound, Midway, DuePass,
      ValidateTxSignatures, AddBuffers, OverlayRun, RenewalsComplete, KeysDistinct, RenewalAllowed, RenewedIn, Due, CollectedFor,
      LeavesEndedAlone, Renewable, Creatable, Ended, Predictable, RecycleEndsFirst, PassesAmong;
    CollectedDue(v.Cx(), v.Committed(), v.chain.checkpoint, now);
    var deadline := Deadline(v.Cx(), v.chain.checkpoint, now).value;
    var b := v.Committed();
    var ids := Sorted(IdsBefore(b, deadline));
    CollectingSucceedsIff(v, deadline);
    PassingAreCreatable(v, deadline);
    var collected := CreateAll(v.Cx(), b, ids);
    if collected.Ok? {
      SettledMakesDue(v, deadline);
      SignedRecordsOf(v.Cx(), b, ids, sign);
      var signed := Signed(sign, collected.value).value;
      AddPrefix(v, m.minerId, map[], signed, m.pending);
      assert signed + [] == signed;
      SignedRenewalsPassIff(v, m.minerId, deadline, signed);
      CollectedLeavesEndedAloneIff(v.Cx(), b, IdsBefore(b, deadline), signed);
      CollectedIsComplete(v.Cx(), b, deadline, signed, extra);
      CollectedHasNoKeys(v.Cx(), b, ids, signed, extra);
      PredictableWithPending(v, m, deadline, signed);
    }
  }

  lemma SignedRenewalsPassIff(v: View, leader: Id, deadline: nat, signed: seq<Record>)
    requires Settled(v, deadline) && CollectedFor(v.Cx(), v.Committed(), Sorted(IdsBefore(v.Committed(), deadline)), signed)
    requires forall i | 0 <= i < |signed| :: ValidateTxSignatures(v.codec, v.Committed(), signed[i], leader, true).Done?
    ensures AddBuffers(v, leader, map[], signed).1.Done? <==> DuePass(v, deadline)
  {
    hide Settled, Sorted, IdsBefore, IdsMatch, Midway, ValidateTxSignatures, AddBuffers, OverlayRun, Due, CollectedFor, Passes, PassesAmong;
    var ids := Sorted(IdsBefore(v.Committed(), deadline));
    SettledMakesDue(v, deadline);
    ValidlySignedRun(v, leader, map[], signed);
    assert [] + ids == ids;
    OverlayAcceptsIff(v.Cx(), v.Committed(), map[], [], ids, signed, v.BlockId(), v.slot);
    assert forall i | 0 <= i < |ids| :: [] + ids[..i] == ids[..i];
    AllPassIff(v.Cx(), v.Committed(), IdsBefore(v.Committed(), deadline));
  }

  /** With pending transactions that neither set the configuration nor end the fee account, a prepared slot is predictable. */
  lemma PredictableWithPending(v: View, m: MinerState, deadline: nat, signed: seq<Record>)
    requires Settled(v, deadline) && CollectedFor(v.Cx(), v.Committed(), Sorted(IdsBefore(v.Committed(), deadline)), signed)
    ensures PrepareSlot(v, m, true, Some(signed)).1.Done? && NoConfig(v.codec, m.pending) && LateJoiner.KeepsFeeAccount(v.codec, m.pending) ==>
      Predictable(v, PrepareSlot(v, m, true, Some(signed)).0)
  {
    hide Settled, Sorted, IdsBefore, IdsMatch, Midway, PrepareSlot, Predictable, Due, CollectedFor;
    SettledMakesDue(v, deadline);
    CollectedArePlain(v.Cx(), v.Committed(), Sorted(IdsBefore(v.Committed(), deadline)), signed);
    var all := signed + m.pending;
    assert forall i | |signed| <= i < |all| :: all[i] == m.pending[i - |signed|];
    if PrepareSlot(v, m, true, Some(signed)).1.Done? && NoConfig(v.codec, m.pending) && LateJoiner.KeepsFeeAccount(v.codec, m.pending) {
      PreparedIsPredictable(v, m, signed);
    }
  }

  lemma PassingAreCreatable(v: View, deadline: nat)
    ensures DuePass(v, deadline) ==> forall id | id in IdsBefore(v.Committed(), deadline) :: Creatable(v.Cx(), v.Committed(), id)
  {
    hide Creatable, IdsBefore, Ends, MinFee;
    if DuePass(v, deadline) {
      forall id | id in IdsBefore(v.Committed(), deadline)
        ensures Creatable(v.Cx(), v.Committed(), id)
      {
        assert PassesAmong(v.Cx(), v.Committed(), IdsBefore(v.Committed(), deadline), id);
      }
    }
  }

  /** Without a deadline nothing is due. */
  lemma CollectedDue(cx: Context, b: Accounts, checkpoint: Checkpoint, now: int)
    requires cx.config.Some?
    ensures Deadline(cx, checkpoint, now).Ok?
    ensures Collected(cx, b, checkpoint, now) == CreateAll(cx, b, Sorted(IdsBefore(b, Deadline(cx, checkpoint, now).value)))
  {
    var deadline := Deadline(cx, checkpoint, now).value;
    if deadline == 0 {
      assert IdsBefore(b, deadline) == {};
    }
  }

  // ----- whole runs -----

  /** What the agreement needs of the accounts holds in every state of every run of ordinary blocks that leave the genesis
      account's metadata alone. */
  lemma RunsStayReady(codec: Codec, st: ChainState, events: seq<Event>)
    requires DecodesInt64(codec) && SupplyInvariant(st.world.accounts) && AnchorInvariant(codec, st)
    requires Accepted(codec, st, events) && OrdinaryAlong(codec, st, events)
    requires forall i | 0 <= i < |events| :: EventHarmless(codec, events[i])
    ensures var last := Run(codec, st, events).0;
      Bounded(last.world.accounts) && Anchored(codec, last.ledger, last.world.accounts)
  {
    hide Run, Accepted, OrdinaryAlong, EventHarmless, Anchored, BaseInvariant, Bounded;
    SupplyHolds(codec, st, events);
    AnchorsHold(codec, st, events);
  }

  /** After an accepted block the genesis account's renewal fails for want of metadata if and only if the block has a user
      update of the account, which validators accept, and no record that carries genesis metadata. */
  lemma GenesisRenewalStopsIff(codec: Codec, st: ChainState, node: ChainNode, now: int)
    requires AnchorInvariant(codec, st) && AtTip(st, node) && AddBlock(codec, st, node, now).1.Done?
    requires ID_GENESIS in AddBlock(codec, st, node, now).0.world.accounts
    ensures var next := AddBlock(codec, st, node, now).0; var cx := ContextOf(codec, next.ledger, next.world);
      && (MinFee(cx, next.world.accounts, ID_GENESIS) == Err(Internal) <==>
            BlockUpdatesGenesis(codec, node.block) && !BlockHasGenesisMeta(codec, node.block))
      && (BlockUpdatesGenesis(codec, node.block) && !BlockHasGenesisMeta(codec, node.block) ==>
            CreateRenewal(cx, next.world.accounts, ID_GENESIS) == Err(Internal))
  {
    hide AddBlock, BlockUpdatesGenesis, BlockHasGenesisMeta, GenesisMetaFromBlock, Anchored, UserAccountFromBlock,
      MinFeeFromNonFreeSize;
    OfferKeepsBase(codec, st, node, now);
    GenesisReadableIff(codec, st, node, now);
    FeeErrors(AddBlock(codec, st, node, now).0.world.config.value);
  }

  lemma FeeErrors(config: BlockChainConfig)
    ensures forall size | MinFeeForSize(config, size).Err? :: MinFeeForSize(config, size) == Err(TxValidation)
  {
  }

  // ----- the program's own codec -----

  /** What the agreement assumes of the codec holds of the binary one, for values that fit their wire types. */
  lemma BinaryCarries(digest: Bytes -> Bytes, verify: (nat, Bytes, Bytes, Bytes) -> bool,
                      leader: (map<Id, u64>, nat, nat) -> Id, cx: Context, b: Accounts, id: Id)
    requires cx.codec == Binary(digest, verify, leader) && id in b
    requires RenewalTx(cx, b, id).Ok? ==> TxFits(RenewalTx(cx, b, id).value) && |RenewalTx(cx, b, id).value.meta| <= MAX_STRING_SIZE
    requires MinFee(cx, b, id).Ok? && id == ID_GENESIS ==>
      var payload := GenesisPayload(cx, b, MinFee(cx, b, id).value);
      payload.Ok? ==> GenesisMetaFits(payload.value) && UserAccountSmall(payload.value.genesis)
    requires MinFee(cx, b, id).Ok? && id != ID_GENESIS ==>
      var payload := UserPayload(cx, b, id, MinFee(cx, b, id).value);
      payload.Ok? ==> UserAccountFits(payload.value) && UserAccountSmall(payload.value)
    ensures Carried(cx, b, id)
  {
    hide RenewalTx, MinFee, GenesisPayload, UserPayload, TxFits, GenesisMetaFits, UserAccountFits, UserAccountSmall, Binary;
    if RenewalTx(cx, b, id).Ok? {
      var tx := RenewalTx(cx, b, id).value;
      forall signatures
        ensures cx.codec.decode(cx.codec.encode(tx).(signatures := signatures)) == Some(tx)
      {
        SignedReadsBack(digest, verify, leader, tx, signatures);
      }
    }
    if MinFee(cx, b, id).Ok? {
      var fee := MinFee(cx, b, id).value;
      if id == ID_GENESIS && GenesisPayload(cx, b, fee).Ok? {
        var payload := GenesisPayload(cx, b, fee).value;
        BinaryReadsBack(digest, verify, leader, TxEndUser(0, 0, []), payload.genesis, payload);
      }
      if id != ID_GENESIS && UserPayload(cx, b, id, fee).Ok? {
        var payload := UserPayload(cx, b, id, fee).value;
        BinaryReadsBack(digest, verify, leader, TxEndUser(0, 0, []), payload, NoMeta(payload));
      }
    }
  }

  function NoMeta(a: UserAccount): GenesisAccountMeta {
    GenesisAccountMeta(BlockChainConfig(0, 0, 0, 0, 0, [], 0, CheckpointConfig(0, 0), 0), a)
  }
}
