/** The scan for an idempotency key in the ledger, and the validation window around it. */
module TxIdempotency {
  import opened Numbers
  import opened Outcomes
  import opened ChainTypes
  import opened LedgerView
  import Ouroboros

  type Key = (Id, u64)

  /** The wallet and client id of a record that takes part in idempotency. */
  function KeyOf(codec: Codec, rec: Record): Option<Key> {
    match codec.decode(rec)
    case Some(tx) => TxKey(tx)
    case None => None
  }

  function TxKey(tx: TypedTx): Option<Key> {
    match tx
    case TxDefault(_, from, _, _, _, _, w) => WindowKey(from, w)
    case TxNewUser(from, _, _, _, _, w) => WindowKey(from, w)
    case TxConfig(_, _, w) => WindowKey(ID_GENESIS, w)
    case TxUserUpdate(wallet, _, _, w) => WindowKey(wallet, w)
    case _ => None
  }

  function WindowKey(wallet: Id, w: Window): Option<Key> {
    if w.idempotentId == 0 then None else Some((wallet, w.idempotentId))
  }

  predicate HasKey(codec: Codec, records: seq<Record>, key: Key) {
    exists i | 0 <= i < |records| :: KeyOf(codec, records[i]) == Some(key)
  }

  /** The scan from block `id` on: it stops after `slotMax` and skips what lies before `slotMin`. */
  function Scan(codec: Codec, l: Ledger, key: Key, slotMin: nat, slotMax: nat, id: nat): Status
    decreases l.Next() - id
  {
    if !l.Has(id) then Done
    else if l.At(id).slot > slotMax then Done
    else if l.At(id).slot >= slotMin && HasKey(codec, l.At(id).records, key) then Failed(TxIdempotency)
    else Scan(codec, l, key, slotMin, slotMax, id + 1)
  }

  function CheckIdempotency(codec: Codec, l: Ledger, c: Ouroboros.Schedule, key: Key, slotMin: nat, slotMax: nat): Status {
    if key.1 == 0 then Done
    else
      match FindBlockByTimestamp(l, Ouroboros.SlotStart(c, slotMin))
      case None => Done
      case Some(id) => Scan(codec, l, key, slotMin, slotMax, id)
  }

  method CheckForDuplicate(codec: Codec, l: Ledger, c: Ouroboros.Schedule, key: Key, slotMin: nat, slotMax: nat)
    returns (s: Status)
    ensures s == CheckIdempotency(codec, l, c, key, slotMin, slotMax)
  {
    if key.1 == 0 {
      return Done;
    }
    var first := FindBlockByTimestamp(l, Ouroboros.SlotStart(c, slotMin));
    if first.None? {
      return Done;
    }
    var id := first.value;
    while id < l.Next()
      invariant first.value <= id <= l.Next()
      invariant Scan(codec, l, key, slotMin, slotMax, first.value) == Scan(codec, l, key, slotMin, slotMax, id)
    {
      var block := l.At(id);
      if block.slot > slotMax {
        break;
      }
      if block.slot >= slotMin {
        var i := 0;
        while i < |block.records|
          invariant 0 <= i <= |block.records|
          invariant forall j | 0 <= j < i :: KeyOf(codec, block.records[j]) != Some(key)
        {
          if KeyOf(codec, block.records[i]) == Some(key) {
            return Failed(TxIdempotency);
          }
          i := i + 1;
        }
      }
      id := id + 1;
    }
    return Done;
  }

  /** Slots in strictly increasing order, each block timed inside its slot. */
  ghost predicate Orderly(l: Ledger, c: Ouroboros.Schedule) {
    && c.IsSet() && c.slotDuration <= INT64_MAX && 0 <= c.genesisTime
    && (forall i | l.Has(i) :: Ouroboros.SlotInRange(c, l.At(i).slot))
    && (forall i | l.Has(i) :: Ouroboros.ValidBlockTiming(c, l.At(i).timestamp, l.At(i).slot))
    && (forall i, j | l.start <= i < j < l.Next() :: l.At(i).slot < l.At(j).slot)
  }

  lemma OrderlyTimestamps(l: Ledger, c: Ouroboros.Schedule)
    requires Orderly(l, c)
    ensures TimestampsIncrease(l)
  {
    forall i, j | l.start <= i < j < l.Next()
      ensures l.At(i).timestamp < l.At(j).timestamp
    {
      Ouroboros.TimestampsFollowSlots(c, l.At(i).timestamp, l.At(i).slot, l.At(j).timestamp, l.At(j).slot);
    }
  }

  ghost predicate KeyInWindow(codec: Codec, l: Ledger, key: Key, slotMin: nat, slotMax: nat) {
    exists i | l.Has(i) :: slotMin <= l.At(i).slot <= slotMax && HasKey(codec, l.At(i).records, key)
  }

  lemma {:induction false} ScanMeaning(codec: Codec, l: Ledger, c: Ouroboros.Schedule, key: Key, slotMin: nat,
                                       slotMax: nat, id: nat)
    requires Orderly(l, c) && l.start <= id <= l.Next()
    ensures Scan(codec, l, key, slotMin, slotMax, id).Done? <==>
      forall i | id <= i < l.Next() :: slotMin <= l.At(i).slot <= slotMax ==> !HasKey(codec, l.At(i).records, key)
    decreases l.Next() - id
  {
    if id < l.Next() {
      ScanMeaning(codec, l, c, key, slotMin, slotMax, id + 1);
    }
  }

  /** On an orderly ledger the check passes exactly when no block between the two slots holds the key. */
  lemma CheckMeaning(codec: Codec, l: Ledger, c: Ouroboros.Schedule, key: Key, slotMin: nat, slotMax: nat)
    requires Orderly(l, c) && key.1 != 0 && Ouroboros.SlotInRange(c, slotMin)
    ensures CheckIdempotency(codec, l, c, key, slotMin, slotMax).Done? <==> !KeyInWindow(codec, l, key, slotMin, slotMax)
  {
    OrderlyTimestamps(l, c);
    var start := Ouroboros.SlotStart(c, slotMin);
    FindsFirst(l, start);
    forall i | l.Has(i)
      ensures l.At(i).timestamp >= start <==> l.At(i).slot >= slotMin
    {
      Ouroboros.StartOrdersBlocks(c, l.At(i).timestamp, l.At(i).slot, slotMin);
    }
    var first := FindBlockByTimestamp(l, start);
    if first.Some? {
      ScanMeaning(codec, l, c, key, slotMin, slotMax, first.value);
    }
  }

  /** The rules a strict record with an idempotency id must meet at `effectiveSlot`. */
  function ValidateIdempotencyRules(codec: Codec, l: Ledger, c: Ouroboros.Schedule, config: Option<BlockChainConfig>,
                                    wallet: Id, w: Window, effectiveSlot: nat, strict: bool): Status {
    if !strict || w.idempotentId == 0 then Done
    else if w.tsMax < w.tsMin then Failed(TxValidation)
    else if config.None? then Failed(TxValidation)
    else if w.tsMax - w.tsMin > config.value.maxValidationTimespanSeconds then Failed(TxValidationTimespan)
    else if !c.IsSet() then Failed(ConsensusNotSet)
    else
      var slotMin := Ouroboros.SlotFromTimestamp(c, w.tsMin);
      var slotMax := Ouroboros.SlotFromTimestamp(c, w.tsMax);
      if effectiveSlot < slotMin || effectiveSlot > slotMax then Failed(TxTimeOutsideWindow)
      else if effectiveSlot == 0 || effectiveSlot <= slotMin then Done
      else CheckIdempotency(codec, l, c, (wallet, w.idempotentId), slotMin, effectiveSlot - 1)
  }

  /** The slots from the start of a record's validation window up to, but without, its own slot hold no
      other record with its key; the record's own slot lies inside the window. */
  lemma RulesMeaning(codec: Codec, l: Ledger, c: Ouroboros.Schedule, config: Option<BlockChainConfig>, wallet: Id,
                     w: Window, effectiveSlot: nat)
    requires Orderly(l, c) && w.idempotentId != 0 && w.tsMin <= INT64_MAX
    requires ValidateIdempotencyRules(codec, l, c, config, wallet, w, effectiveSlot, true).Done?
    ensures Ouroboros.SlotFromTimestamp(c, w.tsMin) <= effectiveSlot <= Ouroboros.SlotFromTimestamp(c, w.tsMax)
    ensures forall i | l.Has(i) && HasKey(codec, l.At(i).records, (wallet, w.idempotentId)) ::
      l.At(i).slot < Ouroboros.SlotFromTimestamp(c, w.tsMin) || effectiveSlot <= l.At(i).slot
  {
    var slotMin := Ouroboros.SlotFromTimestamp(c, w.tsMin);
    Ouroboros.SlotOfTimestampInRange(c, w.tsMin);
    if slotMin < effectiveSlot {
      CheckMeaning(codec, l, c, (wallet, w.idempotentId), slotMin, effectiveSlot - 1);
    }
  }
}
