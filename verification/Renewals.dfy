/** Renewals that a producer collects: for every account past the deadline the record that renews it, or that ends it
    when it cannot pay for its renewal. */
module Renewals {
  import opened Numbers
  import opened Outcomes
  import opened ChainTypes
  import opened Bank
  import opened LedgerView
  import opened TxFees
  import opened TxHandlers
  import opened BlockValidation
  import Sequences

  // ----- the payload of a renewal -----

  /** The wallet without the fee; a wallet that never held the native token stays as it is. */
  function Paying(w: Wallet, fee: int): Wallet {
    if ID_GENESIS !in w.balances then w else w.(balances := w.balances[ID_GENESIS := w.balances[ID_GENESIS] - fee])
  }

  function RenewedGenesis(gm: GenesisAccountMeta, w: Wallet, fee: u64): Result<GenesisAccountMeta> {
    if ID_GENESIS in w.balances && w.balances[ID_GENESIS] < INT64_MIN + ToInt64(fee) then Err(TxValidation)
    else Ok(gm.(genesis := gm.genesis.(wallet := Paying(w, ToInt64(fee)))))
  }

  /** The fee account's fee is only checked: it pays to itself. */
  function RenewedUser(account: UserAccount, id: Id, w: Wallet, fee: u64): Result<UserAccount> {
    if ID_GENESIS !in w.balances then Ok(account.(wallet := w))
    else if id == ID_FEE then
      if w.balances[ID_GENESIS] < INT64_MIN + ToInt64(fee) then Err(TxValidation) else Ok(account.(wallet := w))
    else if w.balances[ID_GENESIS] < ToInt64(fee) then Err(AccountBalance)
    else Ok(account.(wallet := Paying(w, ToInt64(fee))))
  }

  /** The serialized metadata from the block that last set the account, with the account's wallet as it is now. */
  function UpdatedMeta(codec: Codec, block: Block, a: Account, fee: u64): Result<Bytes> {
    if a.id == ID_GENESIS then
      match GenesisMetaFromBlock(codec, block)
      case Err(e) => Err(e)
      case Ok(gm) =>
        match RenewedGenesis(gm, a.wallet, fee)
        case Err(e) => Err(e)
        case Ok(renewed) => Ok(codec.packGenesisMeta(renewed))
    else
      match UserAccountFromBlock(codec, block, a.id)
      case Err(e) => Err(e)
      case Ok(account) =>
        match RenewedUser(account, a.id, a.wallet, fee)
        case Err(e) => Err(e)
        case Ok(renewed) => Ok(codec.packUserAccount(renewed))
  }

  // ----- one record -----

  function MinFee(cx: Context, b: Accounts, id: Id): Result<u64> {
    if cx.config.None? then Err(Internal) else MinFeeForAccount(cx.codec, cx.ledger, cx.config.value, b, id)
  }

  /** The comparison is unsigned: a negative balance counts as a large one. */
  predicate EndsItself(b: Accounts, id: Id, fee: u64) {
    id != ID_GENESIS && id != ID_FEE && Wrap(BalanceOf(b, id, ID_GENESIS)) < fee
  }

  function RenewalTx(cx: Context, b: Accounts, id: Id): (r: Result<TypedTx>)
    ensures r.Ok? ==> (r.value.TxRenewal? || r.value.TxEndUser?) && r.value.walletId == id && id in b
  {
    if id !in b then Err(AccountNotFound)
    else
      match MinFee(cx, b, id)
      case Err(e) => Err(e)
      case Ok(fee) =>
        if EndsItself(b, id, fee) then Ok(TxEndUser(id, 0, []))
        else
          match ReadBlock(cx.ledger, b[id].blockId)
          case None => Err(BlockNotFound)
          case Some(node) =>
            match UpdatedMeta(cx.codec, node.block, b[id], fee)
            case Err(e) => Err(e)
            case Ok(meta) => Ok(TxRenewal(id, fee, meta))
  }

  /** The record, not signed yet. */
  function CreateRenewal(cx: Context, b: Accounts, id: Id): Result<Record> {
    match RenewalTx(cx, b, id)
    case Err(e) => Err(e)
    case Ok(tx) => Ok(cx.codec.encode(tx).(signatures := []))
  }

  // ----- all records -----

  function CreateAll(cx: Context, b: Accounts, ids: seq<Id>): Result<seq<Record>>
    decreases |ids|
  {
    if ids == [] then Ok([])
    else
      match CreateRenewal(cx, b, ids[0])
      case Err(e) => Err(e)
      case Ok(rec) =>
        match CreateAll(cx, b, ids[1..])
        case Err(e) => Err(e)
        case Ok(more) => Ok([rec] + more)
  }

  function Deadline(cx: Context, checkpoint: Checkpoint, now: int): Result<nat> {
    MaxBlockIdForRenewal(cx.ledger, cx.config, checkpoint, cx.ledger.Next(), now)
  }

  function Collected(cx: Context, b: Accounts, checkpoint: Checkpoint, now: int): Result<seq<Record>> {
    match Deadline(cx, checkpoint, now)
    case Err(e) => Err(e)
    case Ok(deadline) => if deadline == 0 then Ok([]) else CreateAll(cx, b, Sorted(IdsBefore(b, deadline)))
  }

  function DueAmong(b: Accounts, ids: set<Id>, blockId: nat): set<Id> {
    set id | id in ids && id in b && b[id].blockId < blockId
  }

  /** Taking the least id out of those left to look at. */
  lemma OneLess(b: Accounts, ids: set<Id>, id: Id, blockId: nat)
    requires id in ids && id in b && forall other | other in ids :: id <= other
    ensures Sorted(DueAmong(b, ids, blockId))
         == (if b[id].blockId < blockId then [id] else []) + Sorted(DueAmong(b, ids - {id}, blockId))
  {
    hide Sorted;
    if b[id].blockId < blockId {
      SortedStarts(DueAmong(b, ids, blockId), id);
      assert DueAmong(b, ids, blockId) - {id} == DueAmong(b, ids - {id}, blockId);
    } else {
      assert DueAmong(b, ids, blockId) == DueAmong(b, ids - {id}, blockId);
      assert [] + Sorted(DueAmong(b, ids, blockId)) == Sorted(DueAmong(b, ids, blockId));
    }
  }

  /** The accounts last set before a block, in the order of the account map. */
  method AccountIdsBefore(b: Accounts, blockId: nat) returns (ids: seq<Id>)
    ensures ids == Sorted(IdsBefore(b, blockId))
  {
    hide DueAmong;
    ids := [];
    var rest := b.Keys;
    AllDue(b, blockId);
    assert ids + Sorted(DueAmong(b, rest, blockId)) == Sorted(DueAmong(b, rest, blockId));
    while rest != {}
      invariant rest <= b.Keys
      invariant Sorted(IdsBefore(b, blockId)) == ids + Sorted(DueAmong(b, rest, blockId))
      decreases rest
    {
      hide Sorted;
      var id := Least(rest);
      OneLess(b, rest, id, blockId);
      ghost var more := if b[id].blockId < blockId then [id] else [];
      Sequences.Assoc(ids, more, Sorted(DueAmong(b, rest - {id}, blockId)));
      if b[id].blockId < blockId {
        ids := ids + [id];
      } else {
        assert ids + more == ids;
      }
      rest := rest - {id};
    }
    NoneDue(b, blockId);
  }

  lemma AllDue(b: Accounts, blockId: nat)
    ensures DueAmong(b, b.Keys, blockId) == IdsBefore(b, blockId)
  {
  }

  lemma NoneDue(b: Accounts, blockId: nat)
    ensures Sorted(DueAmong(b, {}, blockId)) == []
  {
    assert DueAmong(b, {}, blockId) == {};
  }

  lemma {:induction false} CreateAllMeaning(cx: Context, b: Accounts, ids: seq<Id>)
    ensures var r := CreateAll(cx, b, ids);
      && (r.Ok? <==> forall i | 0 <= i < |ids| :: CreateRenewal(cx, b, ids[i]).Ok?)
      && (r.Ok? ==> |r.value| == |ids| && forall i | 0 <= i < |ids| :: CreateRenewal(cx, b, ids[i]) == Ok(r.value[i]))
    decreases |ids|
  {
    hide CreateRenewal;
    if ids != [] {
      CreateAllMeaning(cx, b, ids[1..]);
      assert forall i | 0 < i < |ids| :: ids[i] == ids[1..][i - 1];
    }
  }

  lemma {:induction false} CreateJoins(cx: Context, b: Accounts, xs: seq<Id>, ys: seq<Id>)
    ensures CreateAll(cx, b, xs).Err? ==> CreateAll(cx, b, xs + ys) == CreateAll(cx, b, xs)
    ensures CreateAll(cx, b, xs).Ok? && CreateAll(cx, b, ys).Err? ==> CreateAll(cx, b, xs + ys) == CreateAll(cx, b, ys)
    ensures CreateAll(cx, b, xs).Ok? && CreateAll(cx, b, ys).Ok? ==>
      CreateAll(cx, b, xs + ys) == Ok(CreateAll(cx, b, xs).value + CreateAll(cx, b, ys).value)
    decreases |xs|
  {
    hide CreateRenewal;
    if xs == [] {
      assert xs + ys == ys;
      assert CreateAll(cx, b, ys).Ok? ==> [] + CreateAll(cx, b, ys).value == CreateAll(cx, b, ys).value;
    } else {
      assert (xs + ys)[0] == xs[0] && (xs + ys)[1..] == xs[1..] + ys;
      CreateJoins(cx, b, xs[1..], ys);
      if CreateAll(cx, b, xs).Ok? && CreateAll(cx, b, ys).Ok? {
        Sequences.Assoc([CreateRenewal(cx, b, xs[0]).value], CreateAll(cx, b, xs[1..]).value, CreateAll(cx, b, ys).value);
      }
    }
  }

  lemma CreateOneMore(cx: Context, b: Accounts, ids: seq<Id>, i: nat)
    requires i < |ids| && CreateAll(cx, b, ids[..i]).Ok?
    ensures CreateRenewal(cx, b, ids[i]).Ok? ==>
      CreateAll(cx, b, ids[..i + 1]) == Ok(CreateAll(cx, b, ids[..i]).value + [CreateRenewal(cx, b, ids[i]).value])
    ensures CreateRenewal(cx, b, ids[i]).Err? ==> CreateAll(cx, b, ids) == Err(CreateRenewal(cx, b, ids[i]).error)
  {
    hide CreateRenewal;
    CreateJoins(cx, b, ids[..i], [ids[i]]);
    assert ids[..i] + [ids[i]] == ids[..i + 1];
    var one := CreateRenewal(cx, b, ids[i]);
    assert [ids[i]][1..] == [] && CreateAll(cx, b, []) == Ok([]);
    assert one.Ok? ==> [one.value] + [] == [one.value];
    CreateJoins(cx, b, ids[..i + 1], ids[i + 1..]);
    assert ids[..i + 1] + ids[i + 1..] == ids;
  }

  method CollectRenewals(cx: Context, b: Accounts, checkpoint: Checkpoint, now: int) returns (r: Result<seq<Record>>)
    ensures r == Collected(cx, b, checkpoint, now)
  {
    hide CreateRenewal;
    var deadline := Deadline(cx, checkpoint, now);
    if deadline.Err? {
      return Err(deadline.error);
    }
    if deadline.value == 0 {
      return Ok([]);
    }
    var ids := AccountIdsBefore(b, deadline.value);
    var renewals := [];
    var i := 0;
    while i < |ids|
      invariant i <= |ids| && CreateAll(cx, b, ids[..i]) == Ok(renewals)
    {
      var rec := CreateRenewal(cx, b, ids[i]);
      CreateOneMore(cx, b, ids, i);
      if rec.Err? {
        return Err(rec.error);
      }
      renewals := renewals + [rec.value];
      i := i + 1;
    }
    assert ids[..i] == ids;
    return Ok(renewals);
  }
}
