/** Renewals in the order of the account map: genesis, fee, reserve and recycle account first. What that order means for the fee
    account's record, for the recycle account's, and for the block that holds them all. */
module RenewalOrder {
  import opened Numbers
  import opened Outcomes
  import opened ChainTypes
  import opened Bank
  import opened LedgerView
  import LateJoiner
  import opened TxHandlers
  import opened Overlay
  import opened Renewals
  import opened RenewalAgreement

  /** What the genesis account pays when it is due with the others. */
  function GenesisPays(cx: Context, b: Accounts, due: set<Id>): nat {
    if ID_GENESIS in due then FeeOf(cx, b, ID_GENESIS) else 0
  }

  /** What the reserve leaves in the recycle account when it is due and cannot pay. */
  function ReserveLeaves(cx: Context, b: Accounts, due: set<Id>, t: Id): nat {
    if ID_RESERVE in due && Ends(cx, b, ID_RESERVE) then Positive(BalanceOf(b, ID_RESERVE, t)) else 0
  }

  /** Whether an account's record passes in a block that renews the accounts `due`: the fee account must owe exactly what the
      genesis account has just paid into it, and the recycle account must not have gained from the reserve. */
  ghost predicate PassesAmong(cx: Context, b: Accounts, due: set<Id>, id: Id) {
    if id == ID_FEE then Creatable(cx, b, id) && MinFee(cx, b, id).value == GenesisPays(cx, b, due)
    else if id == ID_RECYCLE then
      Creatable(cx, b, id) &&
      if Ends(cx, b, id) then BalanceOf(b, id, ID_GENESIS) + ReserveLeaves(cx, b, due, ID_GENESIS) < MinFee(cx, b, id).value
      else forall t :: ReserveLeaves(cx, b, due, t) == 0
    else Renewable(cx, b, id)
  }

  lemma SortedAt(due: set<Id>, i: nat)
    requires i < |Sorted(due)|
    ensures Sorted(due)[i] in due && forall id :: id in Sorted(due)[..i] <==> id in due && id < Sorted(due)[i]
  {
    SortedIncreases(due);
    var ids := Sorted(due);
    assert ids[i] in ids;
    forall id
      ensures id in ids[..i] <==> id in due && id < ids[i]
    {
      if id in due && id < ids[i] {
        assert id in ids;
        var j :| 0 <= j < |ids| && ids[j] == id;
        assert j < i && ids[..i][j] == id;
      }
      if id in ids[..i] {
        var j :| 0 <= j < i && ids[..i][j] == id;
        assert ids[j] in ids;
      }
    }
  }

  /** What the genesis account alone pays before the fee account. */
  lemma CreditedBeforeFee(cx: Context, b: Accounts, due: set<Id>, ids: seq<Id>)
    requires (forall i, j | 0 <= i < j < |ids| :: ids[i] < ids[j]) && forall id :: id in ids <==> id in due && id < ID_FEE
    ensures Credited(cx, b, ids) == GenesisPays(cx, b, due)
  {
    hide MinFee;
    if ids != [] {
      assert ids[0] in ids && ids[|ids| - 1] in ids;
      assert ids == [ID_GENESIS] && ids[..0] == [];
    } else {
      assert ID_GENESIS !in ids;
    }
  }

  /** What accounts before the recycle account leave in it: only the reserve may be ended. */
  lemma {:induction false} GainedBeforeRecycle(cx: Context, b: Accounts, ids: seq<Id>, t: Id)
    requires (forall i, j | 0 <= i < j < |ids| :: ids[i] < ids[j]) && forall i | 0 <= i < |ids| :: ids[i] < ID_RECYCLE
    ensures Gained(cx, b, ids, t) == if ID_RESERVE in ids && Ends(cx, b, ID_RESERVE) then Positive(BalanceOf(b, ID_RESERVE, t)) else 0
    decreases |ids|
  {
    hide MinFee;
    if ids != [] {
      var early, last := ids[..|ids| - 1], ids[|ids| - 1];
      GainedBeforeRecycle(cx, b, early, t);
      assert ids == early + [last];
    }
  }

  lemma PassesInOrder(cx: Context, b: Accounts, due: set<Id>, i: nat)
    requires i < |Sorted(due)|
    ensures Passes(cx, b, Sorted(due)[..i], Sorted(due)[i]) <==> PassesAmong(cx, b, due, Sorted(due)[i])
  {
    hide MinFee, Renewable, Creatable, Credited, Gained, Sorted, Ends;
    var ids := Sorted(due);
    SortedAt(due, i);
    SortedIncreases(due);
    if ids[i] == ID_FEE {
      CreditedBeforeFee(cx, b, due, ids[..i]);
    } else if ids[i] == ID_RECYCLE {
      forall t
        ensures Gained(cx, b, ids[..i], t) == ReserveLeaves(cx, b, due, t)
      {
        GainedBeforeRecycle(cx, b, ids[..i], t);
      }
    }
  }

  /** In the order of the account map all collected records pass exactly when each account's does by its own condition. */
  lemma AllPassIff(cx: Context, b: Accounts, due: set<Id>)
    ensures AllPass(cx, b, Sorted(due)) <==> forall id | id in due :: PassesAmong(cx, b, due, id)
  {
    hide PassesAmong, Passes, Sorted;
    var ids := Sorted(due);
    forall i | 0 <= i < |ids|
      ensures Passes(cx, b, ids[..i], ids[i]) <==> PassesAmong(cx, b, due, ids[i])
    {
      PassesInOrder(cx, b, due, i);
    }
    forall id | id in due
      ensures id in ids
    {
    }
    if forall id | id in due :: PassesAmong(cx, b, due, id) {
      forall i | 0 <= i < |ids|
        ensures Passes(cx, b, ids[..i], ids[i])
      {
        assert ids[i] in ids;
      }
    }
    if AllPass(cx, b, ids) {
      forall id | id in due
        ensures PassesAmong(cx, b, due, id)
      {
        assert id in ids;
        var i :| 0 <= i < |ids| && ids[i] == id;
        assert Passes(cx, b, ids[..i], ids[i]);
      }
    }
  }

  // ----- the recycle account ended among others -----

  /** The recycle account is ended before another account that would have to end in it. */
  predicate RecycleEndsFirst(cx: Context, b: Accounts, due: set<Id>) {
    ID_RECYCLE in due && Ends(cx, b, ID_RECYCLE) && exists id :: id in due && id > ID_RECYCLE && Ends(cx, b, id)
  }

  lemma {:induction false} LeavesAlone(cx: Context, b: Accounts, ids: seq<Id>, records: seq<Record>, ended: set<Id>)
    requires Due(cx, b, ids) && CollectedFor(cx, b, ids, records)
    requires ID_FEE !in ended && forall i | 0 <= i < |ids| :: ids[i] !in ended
    ensures LeavesEndedAlone(cx.codec, records, ended) <==>
      && (ID_RECYCLE in ended ==> forall i | 0 <= i < |ids| :: !Ends(cx, b, ids[i]))
      && forall i, j | 0 <= i < j < |ids| :: ids[i] == ID_RECYCLE && Ends(cx, b, ids[i]) ==> !Ends(cx, b, ids[j])
    decreases |ids|
  {
    hide Sane, RenewalTx, MinFee, UserPayload, GenesisPayload;
    if ids != [] {
      var rest := ids[1..];
      CreationSucceedsIff(cx, b, ids[0]);
      var tx := RenewalTx(cx, b, ids[0]).value;
      assert tx.TxEndUser? <==> Ends(cx, b, ids[0]);
      assert forall i | 0 <= i < |rest| :: rest[i] == ids[i + 1] && rest[i] != ids[0];
      LeavesAlone(cx, b, rest, records[1..], ended + EndedBy(tx));
      hide Ends;
      assert forall i | 0 < i < |ids| :: ids[i] == rest[i - 1];
    }
  }

  /** The collected records leave ended accounts alone unless the recycle account is ended before another account that would have
      to end in it. */
  lemma CollectedLeavesEndedAloneIff(cx: Context, b: Accounts, due: set<Id>, records: seq<Record>)
    requires Due(cx, b, Sorted(due)) && CollectedFor(cx, b, Sorted(due), records)
    ensures LeavesEndedAlone(cx.codec, records, {}) <==> !RecycleEndsFirst(cx, b, due)
  {
    hide Sane, RenewalTx, Sorted, Ends, LeavesEndedAlone;
    var ids := Sorted(due);
    LeavesAlone(cx, b, ids, records, {});
    SortedIncreases(due);
    forall id | id in due
      ensures id in ids
    {
    }
    if RecycleEndsFirst(cx, b, due) {
      assert ID_RECYCLE in ids;
      var i :| 0 <= i < |ids| && ids[i] == ID_RECYCLE;
      var id :| id in due && id > ID_RECYCLE && Ends(cx, b, id);
      assert id in ids;
      var j :| 0 <= j < |ids| && ids[j] == id;
      assert i < j;
    }
    if i, j :| 0 <= i < j < |ids| && ids[i] == ID_RECYCLE && Ends(cx, b, ids[i]) && Ends(cx, b, ids[j]) {
      assert ids[i] in ids && ids[j] in ids;
      assert ids[j] in due && ids[j] > ID_RECYCLE && Ends(cx, b, ids[j]);
    }
  }

  /** Collected records never touch the configuration and never end the fee account. */
  lemma CollectedArePlain(cx: Context, b: Accounts, ids: seq<Id>, records: seq<Record>)
    requires Due(cx, b, ids) && CollectedFor(cx, b, ids, records)
    ensures NoConfig(cx.codec, records) && LateJoiner.KeepsFeeAccount(cx.codec, records)
  {
    hide Sane, RenewalTx, MinFee, UserPayload, GenesisPayload, Creatable;
    forall i | 0 <= i < |records|
      ensures var tx := cx.codec.decode(records[i]); tx.Some? && !tx.value.TxConfig? && !(tx.value.TxEndUser? && tx.value.walletId == ID_FEE)
    {
      assert Sane(cx, b, ids[i]);
      CreationSucceedsIff(cx, b, ids[i]);
    }
  }
}
