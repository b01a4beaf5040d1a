/** A chain whose last checkpoint cannot be loaded: every block was accepted and both checkpoints were taken, but the checkpoint
    block opens with a new account paid for by one that a joiner has not met yet. */
module JoinerCounterexample {
  import opened Numbers
  import opened Outcomes
  import opened ChainTypes
  import opened Bank
  import opened LedgerView
  import opened TxFees
  import opened TxHandlers
  import opened TxIdempotency
  import opened BlockValidation
  import opened ChainSpec
  import opened BinaryCodec
  import opened ChainCodec
  import opened Runs
  import opened SmallChain
  import opened SmallRenewals
  import LateJoiner
  import Ouroboros

  /** No fees, no block limit, a minimum checkpoint age of ten seconds and epochs of one slot. */
  const TERMS := Terms(0, 0, 10, 1)

  const NEWCOMER: Id := ID_FIRST_USER
  const JOINING := TxNewUser(ID_RESERVE, NEWCOMER, 0, 0, Payload(0), NEVER)

  /** A chain behind blocks of the given seconds. */
  ghost predicate Grown(st: ChainState, times: seq<nat>, ns: map<Id, int>, at: map<Id, nat>, checkpoint: Checkpoint) {
    && Live(st) && st.world.config == Some(TERMS.Config()) && st.world.accounts == Stamped(ns, at) && st.checkpoint == checkpoint
    && times != [] && |st.ledger.nodes| == |times|
    && forall i | 0 <= i < |times| :: st.ledger.At(i).timestamp == times[i] && st.ledger.At(i).slot == times[i]
  }

  /** The deadline at the tip, given the first block that is not older than ten seconds. */
  lemma DeadlineAt(st: ChainState, times: seq<nat>, ns: map<Id, int>, at: map<Id, nat>, p: Checkpoint, now: int, first: nat)
    requires Grown(st, times, ns, at, p) && first < |times|
    requires times[first] >= now - 10 && forall i | 0 <= i < first :: times[i] < now - 10
    ensures MaxBlockIdForRenewal(st.ledger, st.world.config, st.checkpoint, st.ledger.Next(), now)
         == Ok(if first < |times| - 1 || |times| < 2 then (if |times| < 2 then 0 else first) else |times| - 1)
  {
    hide FindBlockByTimestamp, Linked, Orderly, Stamped;
    OrderlyTimestamps(st.ledger, st.world.consensus.schedule);
    FindsFirst(st.ledger, now - 10);
    BlockNumbers(st);
  }

  lemma BlockNumbers(st: ChainState)
    requires Live(st)
    ensures st.ledger.start == 0 && st.ledger.nodes != [] && Orderly(st.ledger, st.world.consensus.schedule)
    ensures forall i: nat | st.ledger.Has(i) :: st.ledger.At(i).index == i
  {
    hide Orderly;
  }

  /** One more block. */
  lemma Grows(st: ChainState, times: seq<nat>, ns: map<Id, int>, at: map<Id, nat>, p: Checkpoint, slot: nat, records: seq<Record>,
              deadline: nat, ms: map<Id, int>, stamps: map<Id, nat>)
    requires Grown(st, times, ns, at, p) && times[|times| - 1] < slot <= INT64_MAX
    requires MaxBlockIdForRenewal(st.ledger, st.world.config, st.checkpoint, st.ledger.Next(), slot) == Ok(deadline)
    requires RenewalsComplete(Program(), Stamped(ns, at), deadline, records) && KeysDistinct(Program(), records)
    requires st.ledger.nodes != [] && ProcessRecords(Program(), st.ledger, st.world, Follow(st, slot, records).block, 0, true)
          == (st.world.(accounts := Stamped(ms, stamps)), Done)
    ensures var node := Follow(st, slot, records); var (next, s) := AddBlock(Program(), st, node, slot);
      && AtTip(st, node) && s.Done? && next.ledger == Appended(st.ledger, node) && node.block.records == records && node.block.index == |times|
      && Grown(next, times + [slot], ms, stamps, Rotate(st.ledger, st.world.config, p, |times|, slot))
  {
    hide AddBlock, Stamped, Linked, Orderly, MaxBlockIdForRenewal, Binary, ProcessRecords, RenewalsComplete, KeysDistinct, Rotate;
    BlockNumbers(st);
    assert st.ledger.At(|times| - 1) == st.ledger.nodes[|st.ledger.nodes| - 1].block;
    FollowAccepted(st, slot, records, slot, deadline);
    var node := Follow(st, slot, records);
    OfferKeepsBase(Program(), st, node, slot);
    var next := AddBlock(Program(), st, node, slot).0;
    forall i: nat | i < |times| + 1
      ensures next.ledger.At(i).timestamp == (times + [slot])[i] && next.ledger.At(i).slot == (times + [slot])[i]
    {
      AppendedAt(st.ledger, node, i);
    }
  }

  // ----- the records -----

  /** Opening an empty account. */
  lemma JoiningHandled(cx: Context, ns: map<Id, int>, at: map<Id, nat>, blockId: nat)
    requires cx.codec == Program() && cx.config == Some(TERMS.Config()) && Modest(ns)
    requires ID_RESERVE in ns && ns[ID_RESERVE] >= 0 && NEWCOMER !in ns
    ensures Handle(cx, JOINING, Stamped(ns, at), map[], blockId, true) == (Stamped(ns[NEWCOMER := 0], at[NEWCOMER := blockId]), Done)
  {
    hide Binary, Payload, CheckFee;
    PayloadReads(0);
    FeeMet(TERMS, cx, JOINING);
    StampedAt(ns, at, ID_RESERVE);
    var b := Stamped(ns, at);
    assert |Purse(0).balances| == 1;
    assert CheckNewUser(cx, JOINING, b, map[], true).Done?;
    EmptyTransfer(ns, at, blockId);
  }

  lemma EmptyTransfer(ns: map<Id, int>, at: map<Id, nat>, blockId: nat)
    requires Modest(ns) && ID_RESERVE in ns && ns[ID_RESERVE] >= 0 && NEWCOMER !in ns
    ensures Transfer(Stamped(ns, at)[NEWCOMER := Account.Account(NEWCOMER, Purse(0).(balances := map[]), blockId)],
                     ID_RESERVE, NEWCOMER, ID_GENESIS, 0, 0)
         == (Stamped(ns[NEWCOMER := 0], at[NEWCOMER := blockId]), Done)
  {
    var b := Stamped(ns, at)[NEWCOMER := Account.Account(NEWCOMER, Purse(0).(balances := map[]), blockId)];
    PurseSet(b[ID_RESERVE], ns[ID_RESERVE]);
    PurseSet(b[NEWCOMER], 0);
    assert Transfer(b, ID_RESERVE, NEWCOMER, ID_GENESIS, 0, 0).0 == Stamped(ns[NEWCOMER := 0], at[NEWCOMER := blockId]);
  }

  // ----- the accounts -----

  const M0: map<Id, int> := map[ID_GENESIS := -INITIAL_TOKEN_SUPPLY, ID_FEE := 0, ID_RESERVE := INITIAL_TOKEN_SUPPLY, ID_RECYCLE := 0]
  const M1: map<Id, int> := M0[NEWCOMER := 0]
  const A0: map<Id, nat> := map[]
  const A1: map<Id, nat> := map[NEWCOMER := 3]
  const A2: map<Id, nat> := A1[ID_GENESIS := 4][ID_FEE := 4][ID_RESERVE := 4][ID_RECYCLE := 4]

  lemma StampedSigner(tx: TypedTx, ns: map<Id, int>, at: map<Id, nat>)
    requires TxFits(tx) && |tx.meta| <= 1000 && !tx.TxGenesis? && !tx.TxConfig? && IdempotencyOf(tx).1.idempotentId == 0
    requires SignerOf(tx, ID_RESERVE) in ns
    ensures Plain(tx, Stamped(ns, at))
  {
    hide TxFits;
  }

  lemma JoiningIsPlain()
    ensures JOINING.TxNewUser? && SignerOf(JOINING, ID_RESERVE) == ID_RESERVE && IdempotencyOf(JOINING).1.idempotentId == 0
    ensures TxFits(JOINING) && |JOINING.meta| <= 1000 && Program().decode(Sealed(JOINING)) == Some(JOINING)
  {
    hide Binary, Sealed, Payload;
    PayloadReads(0);
    SealedReads(JOINING);
  }

  /** The block with the new account. */
  lemma JoiningApplies(st: ChainState, block: Block)
    requires st.world.accounts == Stamped(M0, A0) && st.world.config == Some(TERMS.Config())
    requires block.index == 3 && block.slotLeader == ID_RESERVE && block.records == [Sealed(JOINING)]
    ensures ProcessRecords(Program(), st.ledger, st.world, block, 0, true) == (st.world.(accounts := Stamped(M1, A1)), Done)
  {
    hide Binary, Sealed, Payload, Stamped, Handle, ProcessRecord, ProcessRecords, Plain, TxFits, SignerOf, IdempotencyOf;
    JoiningIsPlain();
    StampedSigner(JOINING, M0, A0);
    JoiningHandled(ContextOf(Program(), st.ledger, st.world), M0, A0, 3);
    PlainApplies(st.ledger, st.world, JOINING, block);
    NextRecord(Program(), st.ledger, st.world, block, 0);
    assert A0[NEWCOMER := 3] == A1;
    NoMoreRecords(st.ledger, st.world.(accounts := Stamped(M1, A1)), block);
  }

  lemma JoiningAllowed()
    ensures RenewalsComplete(Program(), Stamped(M0, A0), 0, [Sealed(JOINING)]) && KeysDistinct(Program(), [Sealed(JOINING)])
  {
    hide Binary, Sealed, Payload, Stamped;
    JoiningIsPlain();
  }

  /** Renewing an account for nothing. */
  function Renewal(id: Id): TypedTx
    requires id in FOUR
  {
    Renewing(TERMS, id, M0[id])
  }

  lemma FreeRenewal(l: Ledger, w: World, id: Id, at: map<Id, nat>, block: Block)
    requires id in FOUR && w.accounts == Stamped(M1, at) && w.config == Some(TERMS.Config())
    requires block.index == 4 && block.slotLeader == ID_RESERVE
    ensures ProcessRecord(Program(), l, w, Sealed(Renewal(id)), block, true) == (w.(accounts := Stamped(M1, at[id := 4])), Done)
  {
    hide Binary, Sealed, Stamped, Handle, Plain, TxFits, Renewing, ProcessRecord;
    var cx := ContextOf(Program(), l, w);
    RenewingReads(TERMS, id, M0[id]);
    StampedSigner(Renewal(id), M1, at);
    PlainApplies(l, w, Renewal(id), block);
    NothingCharged(id);
    if id == ID_FEE {
      FeeRenewingHandled(TERMS, cx, M1, at, map[], 4);
    } else {
      RenewingHandled(TERMS, cx, M1, at, id, map[], 4);
    }
  }

  lemma NothingCharged(id: Id)
    requires id in FOUR
    ensures id in M1 && M1[id] == M0[id] && Modest(M1) && ID_FEE in M1
    ensures M1[id := M1[id] - 0][ID_FEE := M1[ID_FEE] + 0] == M1
  {
  }

  function Renewed(): seq<Record> {
    [Sealed(Renewal(ID_GENESIS)), Sealed(Renewal(ID_FEE)), Sealed(Renewal(ID_RESERVE)), Sealed(Renewal(ID_RECYCLE))]
  }

  lemma RenewedApply(st: ChainState, block: Block)
    requires st.world.accounts == Stamped(M1, A1) && st.world.config == Some(TERMS.Config())
    requires block.index == 4 && block.slotLeader == ID_RESERVE && block.records == Renewed()
    ensures ProcessRecords(Program(), st.ledger, st.world, block, 0, true) == (st.world.(accounts := Stamped(M1, A2)), Done)
  {
    hide Binary, Sealed, Stamped, Renewal, ProcessRecord, ProcessRecords;
    var l, w := st.ledger, st.world;
    var a1 := A1[ID_GENESIS := 4];
    var a2 := a1[ID_FEE := 4];
    var a3 := a2[ID_RESERVE := 4];
    var w1, w2, w3 := w.(accounts := Stamped(M1, a1)), w.(accounts := Stamped(M1, a2)), w.(accounts := Stamped(M1, a3));
    FreeRenewal(l, w, ID_GENESIS, A1, block);
    FreeRenewal(l, w1, ID_FEE, a1, block);
    FreeRenewal(l, w2, ID_RESERVE, a2, block);
    FreeRenewal(l, w3, ID_RECYCLE, a3, block);
    NextRecord(Program(), l, w, block, 0);
    NextRecord(Program(), l, w1, block, 1);
    NextRecord(Program(), l, w2, block, 2);
    NextRecord(Program(), l, w3, block, 3);
    NoMoreRecords(l, w.(accounts := Stamped(M1, A2)), block);
  }

  lemma RenewalReads(id: Id)
    requires id in FOUR
    ensures RenewalIdOf(Program(), Sealed(Renewal(id))) == Some(id) && KeyOf(Program(), Sealed(Renewal(id))).None?
    ensures Program().decode(Sealed(Renewal(id))).Some?
  {
    hide Binary, Sealed, Renewing, TxFits;
    RenewingReads(TERMS, id, M0[id]);
    SealedReads(Renewal(id));
  }

  lemma RenewedComplete()
    ensures RenewalsComplete(Program(), Stamped(M1, A1), 1, Renewed()) && KeysDistinct(Program(), Renewed())
  {
    hide Binary, Sealed, Renewal, KeyOf, RenewalIdOf;
    RenewalReads(ID_GENESIS);
    RenewalReads(ID_FEE);
    RenewalReads(ID_RESERVE);
    RenewalReads(ID_RECYCLE);
    var b, rs := Stamped(M1, A1), Renewed();
    assert IdsBefore(b, 1) == FOUR;
    assert RenewalIdOf(Program(), rs[0]) == Some(ID_GENESIS) && RenewalIdOf(Program(), rs[1]) == Some(ID_FEE);
    assert RenewalIdOf(Program(), rs[2]) == Some(ID_RESERVE) && RenewalIdOf(Program(), rs[3]) == Some(ID_RECYCLE);
  }

  lemma NothingDue(deadline: nat)
    requires deadline <= 3
    ensures RenewalsComplete(Program(), Stamped(M1, A2), deadline, [])
    ensures deadline == 0 ==> RenewalsComplete(Program(), Stamped(M0, A0), deadline, [])
  {
    hide Binary;
  }

  // ----- the checkpoints -----

  lemma Rotates(st: ChainState, times: seq<nat>, ns: map<Id, int>, at: map<Id, nat>, p: Checkpoint, now: nat)
    requires Grown(st, times, ns, at, p) && p.currentId < |times| < 1000 && now >= times[p.currentId]
    ensures Rotate(st.ledger, st.world.config, p, |times|, now)
         == if |times| >= p.currentId + 3 && now - times[p.currentId] >= 10 then Checkpoint(p.currentId, |times|) else p
  {
    hide Linked, Orderly, Stamped;
    BlockNumbers(st);
    assert st.ledger.At(p.currentId).timestamp == times[p.currentId];
  }

  // ----- the run -----

  lemma {:induction false} OneMoreEvent(codec: Codec, st: ChainState, events: seq<Event>, e: Event)
    requires Accepted(codec, st, events) && EventAtTip(Run(codec, st, events).0, e) && Step(codec, Run(codec, st, events).0, e).1.Done?
    ensures Run(codec, st, events).1.Done? && Accepted(codec, st, events + [e])
    ensures Run(codec, st, events + [e]) == Step(codec, Run(codec, st, events).0, e)
    decreases |events|
  {
    hide Step, EventAtTip;
    if events == [] {
      assert [] + [e] == [e] && [e][1..] == [];
    } else {
      assert (events + [e])[1..] == events[1..] + [e];
      OneMoreEvent(codec, Step(codec, st, events[0]).0, events[1..], e);
    }
  }

  /** The state that an accepted run of the small chain has led to. */
  ghost predicate Reached(events: seq<Event>, st: ChainState) {
    Accepted(Program(), Boot(TERMS), events) && Run(Program(), Boot(TERMS), events) == (st, Done)
  }

  lemma Reaches(events: seq<Event>, st: ChainState, node: ChainNode, now: int)
    requires Reached(events, st) && AtTip(st, node) && AddBlock(Program(), st, node, now).1.Done?
    ensures Reached(events + [Offer(node, now)], AddBlock(Program(), st, node, now).0)
  {
    hide AddBlock, Run, Accepted, Boot, AtTip;
    OneMoreEvent(Program(), Boot(TERMS), events, Offer(node, now));
  }

  /** A further block, with the records given, in the second given. */
  lemma Further(events: seq<Event>, st: ChainState, times: seq<nat>, ns: map<Id, int>, at: map<Id, nat>, p: Checkpoint, slot: nat,
                records: seq<Record>, first: nat, ms: map<Id, int>, stamps: map<Id, nat>)
      returns (longer: seq<Event>, next: ChainState)
    requires Reached(events, st) && Grown(st, times, ns, at, p) && times[|times| - 1] < slot < 1000 && p.currentId < |times| < 1000
    requires first < |times| && times[first] >= slot - 10 && forall i | 0 <= i < first :: times[i] < slot - 10
    requires first < |times| - 1 || first == 0
    requires RenewalsComplete(Program(), Stamped(ns, at), first, records) && KeysDistinct(Program(), records)
    requires st.ledger.nodes != [] && Follow(st, slot, records).block.index == |times| ==>
      ProcessRecords(Program(), st.ledger, st.world, Follow(st, slot, records).block, 0, true) == (st.world.(accounts := Stamped(ms, stamps)), Done)
    requires slot >= times[p.currentId]
    ensures var after := if |times| >= p.currentId + 3 && slot - times[p.currentId] >= 10 then Checkpoint(p.currentId, |times|) else p;
      Reached(longer, next) && Grown(next, times + [slot], ms, stamps, after)
    ensures st.ledger.start == 0 && |next.ledger.nodes| == |times| + 1 && next.ledger.nodes[..|times|] == st.ledger.nodes
    ensures next.ledger.nodes[|times|].block.records == records && next.ledger.nodes[|times|].block.index == |times|
  {
    hide Grown, AddBlock, Stamped, Linked, Orderly, MaxBlockIdForRenewal, Binary, ProcessRecords, RenewalsComplete, KeysDistinct, Rotate, Reached;
    assert st.ledger.nodes != [] && |st.ledger.nodes| == |times| && st.ledger.start == 0 by {
      GrownNumbers(st, times, ns, at, p);
    }
    DeadlineAt(st, times, ns, at, p, slot, first);
    GrownFollows(st, times, ns, at, p, slot, records);
    Grows(st, times, ns, at, p, slot, records, first, ms, stamps);
    Rotates(st, times, ns, at, p, slot);
    var node := Follow(st, slot, records);
    next := AddBlock(Program(), st, node, slot).0;
    Reaches(events, st, node, slot);
    longer := events + [Offer(node, slot)];
  }

  lemma GrownNumbers(st: ChainState, times: seq<nat>, ns: map<Id, int>, at: map<Id, nat>, p: Checkpoint)
    requires Grown(st, times, ns, at, p)
    ensures st.ledger.nodes != [] && |st.ledger.nodes| == |times| && st.ledger.start == 0
    ensures st.world.accounts == Stamped(ns, at) && st.world.config == Some(TERMS.Config()) && st.checkpoint == p
  {
    hide Stamped, Linked, Orderly;
  }

  lemma GrownFollows(st: ChainState, times: seq<nat>, ns: map<Id, int>, at: map<Id, nat>, p: Checkpoint, slot: nat, records: seq<Record>)
    requires Grown(st, times, ns, at, p)
    ensures st.ledger.nodes != []
    ensures var block := Follow(st, slot, records).block; block.index == |times| && block.slotLeader == ID_RESERVE && block.records == records
  {
    hide Stamped, Linked, Orderly, Binary;
    BlockNumbers(st);
    TipNumber(st.ledger);
  }

  lemma EmptyFurther(events: seq<Event>, st: ChainState, times: seq<nat>, ns: map<Id, int>, at: map<Id, nat>, p: Checkpoint, slot: nat, first: nat)
      returns (longer: seq<Event>, next: ChainState)
    requires Reached(events, st) && Grown(st, times, ns, at, p) && times[|times| - 1] < slot < 1000 && p.currentId < |times| < 1000
    requires first < |times| && times[first] >= slot - 10 && forall i | 0 <= i < first :: times[i] < slot - 10
    requires first < |times| - 1 || first == 0
    requires (ns == M0 && at == A0 && first == 0) || (ns == M1 && at == A2 && first <= 3)
    requires slot >= times[p.currentId]
    ensures var after := if |times| >= p.currentId + 3 && slot - times[p.currentId] >= 10 then Checkpoint(p.currentId, |times|) else p;
      Reached(longer, next) && Grown(next, times + [slot], ns, at, after)
    ensures |next.ledger.nodes| == |times| + 1 && next.ledger.nodes[..|times|] == st.ledger.nodes
  {
    hide Grown, Reached, Stamped, ProcessRecords, RenewalsComplete, Binary;
    NothingDue(first);
    GrownNumbers(st, times, ns, at, p);
    NoMoreRecords(st.ledger, st.world, Follow(st, slot, []).block);
    longer, next := Further(events, st, times, ns, at, p, slot, [], first, ns, at);
  }

  lemma StartReached()
    ensures Reached([Refresh(0)], Started(TERMS)) && Grown(Started(TERMS), [0], M0, A0, Checkpoint(0, 0))
  {
    hide Live, Binary, Sealed, Purses, Stamped;
    StartedIsLive(TERMS);
    assert [Refresh(0)][1..] == [];
    assert Step(Program(), Boot(TERMS), Refresh(0)) == (Started(TERMS), Done);
    assert Run(Program(), Started(TERMS), []) == (Started(TERMS), Done);
    assert Accepted(Program(), Started(TERMS), []);
    assert Opened(TERMS) == M0;
    PursesAreStamped(M0);
  }

  /** Up to the block that opens the new account, which becomes the first checkpoint. */
  lemma FirstHalf() returns (events: seq<Event>, st: ChainState)
    ensures Reached(events, st) && Grown(st, [0, 1, 2, 10], M1, A1, Checkpoint(0, 3))
    ensures |st.ledger.nodes| == 4 && st.ledger.nodes[3].block.records == [Sealed(JOINING)] && st.ledger.nodes[3].block.index == 3
  {
    hide Grown, Reached, Stamped, ProcessRecords, RenewalsComplete, KeysDistinct, Binary, Sealed, Payload;
    StartReached();
    var e1, s1 := EmptyFurther([Refresh(0)], Started(TERMS), [0], M0, A0, Checkpoint(0, 0), 1, 0);
    assert [0] + [1] == [0, 1];
    var e2, s2 := EmptyFurther(e1, s1, [0, 1], M0, A0, Checkpoint(0, 0), 2, 0);
    assert [0, 1] + [2] == [0, 1, 2];
    GrownNumbers(s2, [0, 1, 2], M0, A0, Checkpoint(0, 0));
    GrownFollows(s2, [0, 1, 2], M0, A0, Checkpoint(0, 0), 10, [Sealed(JOINING)]);
    JoiningApplies(s2, Follow(s2, 10, [Sealed(JOINING)]).block);
    JoiningAllowed();
    events, st := Further(e2, s2, [0, 1, 2], M0, A0, Checkpoint(0, 0), 10, [Sealed(JOINING)], 0, M1, A1);
    assert [0, 1, 2] + [10] == [0, 1, 2, 10];
  }

  /** The renewals that are then due, and on to the second checkpoint. */
  lemma SecondHalf(events: seq<Event>, st: ChainState) returns (longer: seq<Event>, full: ChainState)
    requires Reached(events, st) && Grown(st, [0, 1, 2, 10], M1, A1, Checkpoint(0, 3))
    ensures Reached(longer, full) && full.checkpoint == Checkpoint(3, 6) && full.ledger.start == 0
    ensures |full.ledger.nodes| == 7 && |st.ledger.nodes| == 4 && full.ledger.nodes[3] == st.ledger.nodes[3]
  {
    hide Grown, Reached, Stamped, ProcessRecords, RenewalsComplete, KeysDistinct, Binary, Renewed;
    var p := Checkpoint(0, 3);
    GrownNumbers(st, [0, 1, 2, 10], M1, A1, p);
    GrownFollows(st, [0, 1, 2, 10], M1, A1, p, 11, Renewed());
    RenewedApply(st, Follow(st, 11, Renewed()).block);
    RenewedComplete();
    var e4, s4 := Further(events, st, [0, 1, 2, 10], M1, A1, p, 11, Renewed(), 1, M1, A2);
    assert [0, 1, 2, 10] + [11] == [0, 1, 2, 10, 11];
    var e5, s5 := EmptyFurther(e4, s4, [0, 1, 2, 10, 11], M1, A2, p, 12, 2);
    assert [0, 1, 2, 10, 11] + [12] == [0, 1, 2, 10, 11, 12];
    longer, full := EmptyFurther(e5, s5, [0, 1, 2, 10, 11, 12], M1, A2, p, 20, 3);
    assert [0, 1, 2, 10, 11, 12] + [20] == [0, 1, 2, 10, 11, 12, 20];
    GrownNumbers(full, [0, 1, 2, 10, 11, 12, 20], M1, A2, Checkpoint(3, 6));
    assert full.ledger.nodes[3] == full.ledger.nodes[..6][3] == s5.ledger.nodes[3];
    assert s5.ledger.nodes[3] == s5.ledger.nodes[..5][3] == s4.ledger.nodes[3];
    assert s4.ledger.nodes[3] == s4.ledger.nodes[..4][3];
  }

  // ----- the joiner -----

  lemma UnknownPayer(cx: Context, existing: Accounts)
    ensures Handle(cx, JOINING, map[], existing, 3, false).1.Failed?
  {
    hide Payload;
  }

  lemma BlockStops(st: ChainState, block: Block)
    requires st.world.accounts == map[] && block.records == [Sealed(JOINING)] && block.index == 3
    ensures ProcessRecords(Program(), st.ledger, st.world, block, 0, false).1.Failed?
  {
    hide Binary, Sealed, Handle, ValidateTxSignatures;
    JoiningIsPlain();
    UnknownPayer(ContextOf(Program(), st.ledger, st.world), map[]);
    assert ProcessRecord(Program(), st.ledger, st.world, block.records[0], block, false).1.Failed?;
  }

  /** No node that starts with no accounts at a block which opens with the new account can replay it. */
  lemma JoinerStops(joiner: ChainState, now: int)
    requires joiner.ledger.start == 3 && joiner.ledger.nodes != []
    requires var block := joiner.ledger.nodes[0].block; block.records == [Sealed(JOINING)] && block.index == 3
    ensures LoadFromLedger(Program(), joiner, 3, now).1.Failed?
  {
    hide Binary, Sealed, ProcessRecords, ValidateBlock, StakesOf;
    var node := joiner.ledger.nodes[0];
    var reset := ChainState(joiner.ledger, joiner.world.(accounts := map[]), Checkpoint(3, 3));
    if reset.world.consensus.schedule.IsSet() {
      var refreshed := reset.(world := RefreshStakes(reset.world, Ouroboros.EpochFromSlot(reset.world.consensus.schedule, node.block.slot)));
      BlockStops(refreshed, node.block);
      assert ProcessBlock(Program(), refreshed, node, false, now).1.Failed?;
    }
  }

  /** Six blocks behind the genesis block: the third opens an account for a newcomer and becomes the first checkpoint, the fourth
      renews the accounts that are then due, the sixth becomes the second checkpoint. All are accepted, and no node can load the
      chain from its last checkpoint, whatever it is configured with and whenever it tries. */
  lemma CheckpointCannotBeLoaded() returns (events: seq<Event>, full: ChainState)
    ensures Booted(Program(), Boot(TERMS), BARE.world.consensus.schedule, Genesis(TERMS), 0)
    ensures Accepted(Program(), Boot(TERMS), events) && Run(Program(), Boot(TERMS), events) == (full, Done)
    ensures full.checkpoint == Checkpoint(3, 6) && |full.ledger.nodes| == 7
    ensures full.ledger.nodes[3].block.records == [Sealed(JOINING)] && Program().decode(Sealed(JOINING)) == Some(JOINING)
    ensures forall joiner: ChainState, now: int | LateJoiner.SuffixOf(joiner.ledger, full.ledger) && joiner.ledger.start == full.checkpoint.lastId ::
      LoadFromLedger(Program(), joiner, full.checkpoint.lastId, now).1.Failed?
  {
    hide Binary, Sealed, Boot, Booted, Accepted, Run, LoadFromLedger, Payload, Grown;
    Boots(TERMS, 0);
    var half, st := FirstHalf();
    events, full := SecondHalf(half, st);
    JoiningIsPlain();
    forall joiner: ChainState, now: int | LateJoiner.SuffixOf(joiner.ledger, full.ledger) && joiner.ledger.start == full.checkpoint.lastId
      ensures LoadFromLedger(Program(), joiner, full.checkpoint.lastId, now).1.Failed?
    {
      assert joiner.ledger.nodes[0] == full.ledger.nodes[3];
      JoinerStops(joiner, now);
    }
  }
}
