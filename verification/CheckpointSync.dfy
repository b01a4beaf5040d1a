/** The point of checkpoints: a node that starts from the last checkpoint of a running chain, with no accounts, and
    replays the blocks from there, holds the chain's accounts. */
module CheckpointSync {
  import opened Numbers
  import opened Outcomes
  import opened ChainTypes
  import opened Bank
  import opened LedgerView
  import opened TxHandlers
  import opened ChainSpec
  import opened Runs
  import opened CheckpointSafety
  import opened LateJoiner
  import Ouroboros

  lemma {:induction false} RunSplits(codec: Codec, st: ChainState, events: seq<Event>, k: nat)
    requires k <= |events| && Accepted(codec, st, events)
    ensures Accepted(codec, st, events[..k]) && Run(codec, st, events[..k]).1.Done?
    ensures Accepted(codec, Run(codec, st, events[..k]).0, events[k..])
    ensures Run(codec, st, events) == Run(codec, Run(codec, st, events[..k]).0, events[k..])
    decreases |events|
  {
    hide AddBlock;
    hide AtTip;
    if k > 0 {
      RunSplits(codec, Step(codec, st, events[0]).0, events[1..], k - 1);
      assert events[..k][1..] == events[1..][..k - 1];
      assert events[k..] == events[1..][k - 1..];
    } else {
      assert events[..0] == [] && events[0..] == events;
    }
  }

  lemma {:induction false} RotationsSplit(codec: Codec, st: ChainState, events: seq<Event>, k: nat)
    requires k <= |events| && Accepted(codec, st, events) && RotatesSafelyAlong(codec, st, events)
    ensures RotatesSafelyAlong(codec, st, events[..k])
    decreases |events|
  {
    hide AddBlock;
    hide AtTip;
    hide RotatesSafely;
    if k > 0 {
      RotationsSplit(codec, Step(codec, st, events[0]).0, events[1..], k - 1);
      assert events[..k][1..] == events[1..][..k - 1];
    }
  }

  /** Every block id of the ledger was the next one at some point of the run. */
  lemma {:induction false} PointOfBlock(codec: Codec, st: ChainState, events: seq<Event>, id: nat) returns (k: nat)
    requires BaseInvariant(st) && Accepted(codec, st, events)
    requires st.ledger.Next() <= id < Run(codec, st, events).0.ledger.Next()
    ensures k <= |events| && Run(codec, st, events[..k]).0.ledger.Next() == id
    decreases |events|
  {
    hide AddBlock;
    hide AtTip;
    hide BaseInvariant;
    if st.ledger.Next() == id {
      k := 0;
    } else {
      var next := Step(codec, st, events[0]).0;
      if events[0].Offer? {
        OfferKeepsBase(codec, st, events[0].node, events[0].now);
        OfferAppends(codec, st, events[0].node, events[0].now);
      } else {
        RefreshKeepsBase(st, events[0].epoch);
      }
      var rest := PointOfBlock(codec, next, events[1..], id);
      k := rest + 1;
      assert events[..k][1..] == events[1..][..rest];
    }
  }

  /** The late joiner's accounts are the full node's: the same ids except possibly the genesis account, each equal,
      and a fee account that differs at most by native fees it missed. */
  ghost predicate Synchronized(l: Accounts, f: Accounts) {
    && l.Keys <= f.Keys && f.Keys <= l.Keys + {ID_GENESIS}
    && (forall id | id in l && id != ID_FEE :: l[id] == f[id])
    && (ID_FEE in l ==> SameButNative(l[ID_FEE], f[ID_FEE]))
  }

  /** If the replay from the last checkpoint succeeds, it reproduces the accounts of the running chain. */
  lemma CheckpointSyncIsExact(codec: Codec, boot: ChainState, events: seq<Event>, joiner: ChainState, now: int)
    requires CheckpointInvariant(boot) && boot.ledger.Next() == 1
    requires Accepted(codec, boot, events) && RotatesSafelyAlong(codec, boot, events)
    requires var full := Run(codec, boot, events).0;
      && full.checkpoint.lastId > 0
      && SuffixOf(joiner.ledger, full.ledger) && joiner.ledger.start == full.checkpoint.lastId
      && KeepsFeeAlong(codec, joiner.ledger.nodes)
      && LoadFromLedger(codec, joiner, full.checkpoint.lastId, now).1.Done?
    ensures var full := Run(codec, boot, events).0;
      Synchronized(LoadFromLedger(codec, joiner, full.checkpoint.lastId, now).0.world.accounts, full.world.accounts)
  {
    hide AddBlock;
    hide AtTip;
    hide RotatesSafely;
    hide KeepsFeeAccount;
    var full := Run(codec, boot, events).0;
    var start := full.checkpoint.lastId;
    CheckpointHolds(codec, boot, events);
    var k := PointOfBlock(codec, boot, events, start);
    RunSplits(codec, boot, events, k);
    RotationsSplit(codec, boot, events, k);
    CheckpointHolds(codec, boot, events[..k]);
    var middle := Run(codec, boot, events[..k]).0;
    var reset := ChainState(joiner.ledger, joiner.world.(accounts := map[]), Checkpoint(start, start));
    assert StillSimulates(map[], middle.world.accounts, start);
    ReplaySimulates(codec, middle, events[k..], reset, now, start);
    SimulationAtCheckpoint(LoadFromLedger(codec, joiner, start, now).0.world.accounts, full.world.accounts, start);
  }

  lemma SimulationAtCheckpoint(l: Accounts, f: Accounts, start: nat)
    requires StillSimulates(l, f, start) && forall id | id in f :: f[id].blockId >= start
    ensures Synchronized(l, f)
  {
  }
}
