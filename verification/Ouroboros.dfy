/** Slot arithmetic of the consensus component. */
module Ouroboros {
  import opened Numbers
  import opened Outcomes

  datatype Schedule = Schedule(genesisTime: int, slotDuration: u64, slotsPerEpoch: u64) {
    /** What the source asserts before it divides; it throws otherwise. */
    predicate IsSet() {
      slotDuration > 0 && slotsPerEpoch > 0
    }
  }

  /** The consensus component's state; no epoch has been recorded before the first stake update. */
  datatype Consensus = Consensus(schedule: Schedule, stakes: map<nat, u64>, lastUpdateEpoch: Option<nat>)

  function EpochFromSlot(c: Schedule, slot: nat): nat
    requires c.IsSet()
  {
    slot / c.slotsPerEpoch
  }

  function SlotFromTimestamp(c: Schedule, timestamp: int): nat
    requires c.IsSet()
  {
    if timestamp < c.genesisTime then 0 else (timestamp - c.genesisTime) / c.slotDuration
  }

  /** The product is unsigned 64-bit, then reinterpreted as signed. */
  function SlotStart(c: Schedule, slot: nat): int {
    c.genesisTime + ToInt64(Wrap(slot * c.slotDuration))
  }

  function SlotEnd(c: Schedule, slot: nat): int {
    SlotStart(c, slot) + ToInt64(c.slotDuration)
  }

  predicate ValidBlockTiming(c: Schedule, timestamp: int, slot: nat) {
    SlotStart(c, slot) <= timestamp < SlotEnd(c, slot)
  }

  /** The slots whose offset from genesis is representable, so that `SlotStart` does not wrap. */
  predicate SlotInRange(c: Schedule, slot: nat) {
    slot * c.slotDuration <= INT64_MAX
  }

  lemma SlotStartExact(c: Schedule, slot: nat)
    requires SlotInRange(c, slot)
    ensures SlotStart(c, slot) == c.genesisTime + slot * c.slotDuration
  {
    assert 0 <= slot * c.slotDuration < TWO_64;
  }

  lemma QuotientBounds(x: nat, d: nat)
    requires d > 0
    ensures (x / d) * d <= x < (x / d + 1) * d
  {
    assert x == (x / d) * d + x % d;
  }

  lemma QuotientUnique(x: nat, d: nat, q: nat)
    requires d > 0 && q * d <= x < (q + 1) * d
    ensures x / d == q
  {
    QuotientBounds(x, d);
  }

  lemma SlotMonotone(d: nat, s: nat, t: nat)
    requires s < t
    ensures s * d + d <= t * d
  {
    assert (s + 1) * d <= t * d;
  }

  /** For a timestamp from genesis on, a block's timing is valid for a representable slot exactly when that
      slot is the timestamp's own. */
  lemma TimingIffSlot(c: Schedule, timestamp: int, slot: nat)
    requires c.IsSet() && c.slotDuration <= INT64_MAX
    requires timestamp >= c.genesisTime && SlotInRange(c, slot)
    ensures ValidBlockTiming(c, timestamp, slot) <==> SlotFromTimestamp(c, timestamp) == slot
  {
    SlotStartExact(c, slot);
    var elapsed := timestamp - c.genesisTime;
    QuotientBounds(elapsed, c.slotDuration);
    if slot * c.slotDuration <= elapsed < (slot + 1) * c.slotDuration {
      QuotientUnique(elapsed, c.slotDuration, slot);
    }
  }

  /** For every timestamp from genesis on and every slot whatever, the slot is the timestamp's own if and only if the timing
      is valid for it and its offset is representable. */
  lemma OwnSlotIff(c: Schedule, timestamp: int, slot: nat)
    requires c.IsSet() && c.slotDuration <= INT64_MAX && 0 <= c.genesisTime <= timestamp <= INT64_MAX
    ensures SlotFromTimestamp(c, timestamp) == slot <==> ValidBlockTiming(c, timestamp, slot) && SlotInRange(c, slot)
  {
    SlotOfTimestampInRange(c, timestamp);
    if SlotInRange(c, slot) {
      TimingIffSlot(c, timestamp, slot);
    }
  }

  /** What validation of a block's timing says: the slot it accepts is the timestamp's own exactly when the slot's offset is
      representable. Outside that range the product wraps and every slot it accepts is a foreign one. */
  lemma AcceptedSlotIsOwnIff(c: Schedule, timestamp: int, slot: nat)
    requires c.IsSet() && c.slotDuration <= INT64_MAX && 0 <= c.genesisTime <= timestamp <= INT64_MAX
    requires ValidBlockTiming(c, timestamp, slot)
    ensures SlotFromTimestamp(c, timestamp) == slot <==> SlotInRange(c, slot)
  {
    hide ValidBlockTiming, SlotFromTimestamp, SlotInRange;
    OwnSlotIff(c, timestamp, slot);
  }

  /** Such a foreign slot: its product with the duration is exactly 2^64. */
  lemma TimingWraps(c: Schedule)
    requires c == Schedule(0, 2, 1)
    ensures ValidBlockTiming(c, 0, TWO_63) && !SlotInRange(c, TWO_63) && SlotFromTimestamp(c, 0) == 0 != TWO_63
  {
  }

  /** A block timed in `blockSlot` starts no earlier than `slot` does exactly when its slot is no earlier. */
  lemma StartOrdersBlocks(c: Schedule, timestamp: int, blockSlot: nat, slot: nat)
    requires c.IsSet() && c.slotDuration <= INT64_MAX
    requires SlotInRange(c, blockSlot) && SlotInRange(c, slot)
    requires ValidBlockTiming(c, timestamp, blockSlot)
    ensures timestamp >= SlotStart(c, slot) <==> blockSlot >= slot
  {
    SlotStartExact(c, blockSlot);
    SlotStartExact(c, slot);
    if blockSlot < slot {
      SlotMonotone(c.slotDuration, blockSlot, slot);
    } else if slot < blockSlot {
      SlotMonotone(c.slotDuration, slot, blockSlot);
    }
  }

  /** Blocks in later slots carry later timestamps. */
  lemma TimestampsFollowSlots(c: Schedule, t1: int, s1: nat, t2: int, s2: nat)
    requires c.IsSet() && c.slotDuration <= INT64_MAX
    requires SlotInRange(c, s1) && SlotInRange(c, s2) && s1 < s2
    requires ValidBlockTiming(c, t1, s1) && ValidBlockTiming(c, t2, s2)
    ensures t1 < t2
  {
    SlotStartExact(c, s1);
    SlotStartExact(c, s2);
    SlotMonotone(c.slotDuration, s1, s2);
  }

  lemma SlotOfTimestampInRange(c: Schedule, timestamp: int)
    requires c.IsSet() && c.genesisTime >= 0 && timestamp <= INT64_MAX
    ensures SlotInRange(c, SlotFromTimestamp(c, timestamp))
  {
    if timestamp >= c.genesisTime {
      QuotientBounds(timestamp - c.genesisTime, c.slotDuration);
    }
  }
}
