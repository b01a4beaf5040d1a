/** Account metadata found in blocks, and the minimum fee: a quadratic in the started KiB of billable metadata. */
module TxFees {
  import opened Numbers
  import opened Outcomes
  import opened ChainTypes
  import opened Bank
  import opened LedgerView

  const BYTES_PER_KIB := 1024

  /** The serialized user account in a record that updates `id`; the genesis account has none. */
  function UserMetaOf(codec: Codec, rec: Record, id: Id): Option<Bytes> {
    match codec.decode(rec)
    case Some(TxNewUser(_, to, _, _, meta, _)) => if id != ID_GENESIS && to == id then Some(meta) else None
    case Some(TxUserUpdate(wallet, _, meta, _)) => if id != ID_GENESIS && wallet == id then Some(meta) else None
    case Some(TxRenewal(wallet, _, meta)) => if id != ID_GENESIS && wallet == id then Some(meta) else None
    case _ => None
  }

  /** The serialized genesis metadata in a record of block `blockIndex`. */
  function GenesisMetaOf(codec: Codec, rec: Record, blockIndex: nat): Option<Bytes> {
    match codec.decode(rec)
    case Some(TxGenesis(_, meta)) => if blockIndex == 0 then Some(meta) else None
    case Some(TxConfig(_, meta, _)) => Some(meta)
    case Some(TxRenewal(wallet, _, meta)) => if wallet == ID_GENESIS then Some(meta) else None
    case _ => None
  }

  /** The last of the values that are present. */
  function LastSome<T>(found: seq<Option<T>>): (r: Option<T>)
    ensures r.None? <==> forall x | x in found :: x.None?
    ensures r.Some? ==> r in found
  {
    if found == [] then None
    else
      var last := found[|found| - 1];
      if last.Some? then last else LastSome(found[..|found| - 1])
  }

  function UserMetas(codec: Codec, records: seq<Record>, id: Id): (r: seq<Option<Bytes>>)
    ensures |r| == |records|
    ensures forall i | 0 <= i < |records| :: r[i] == UserMetaOf(codec, records[i], id)
  {
    seq(|records|, i requires 0 <= i < |records| => UserMetaOf(codec, records[i], id))
  }

  function GenesisMetas(codec: Codec, block: Block): (r: seq<Option<Bytes>>)
    ensures |r| == |block.records|
    ensures forall i | 0 <= i < |block.records| :: r[i] == GenesisMetaOf(codec, block.records[i], block.index)
  {
    seq(|block.records|, i requires 0 <= i < |block.records| => GenesisMetaOf(codec, block.records[i], block.index))
  }

  function UserAccountFromBlock(codec: Codec, block: Block, id: Id): Result<UserAccount> {
    match LastSome(UserMetas(codec, block.records, id))
    case None => Err(Internal)
    case Some(meta) =>
      match codec.userAccountOf(meta)
      case None => Err(Deserialize)
      case Some(account) => Ok(account)
  }

  function GenesisMetaFromBlock(codec: Codec, block: Block): Result<GenesisAccountMeta> {
    match LastSome(GenesisMetas(codec, block))
    case None => Err(Internal)
    case Some(meta) =>
      match codec.genesisMetaOf(meta)
      case None => Err(Deserialize)
      case Some(gm) => Ok(gm)
  }

  /** The reverse scan over a block's records for a user account. */
  method FindUserAccount(codec: Codec, block: Block, id: Id) returns (r: Result<UserAccount>)
    ensures r == UserAccountFromBlock(codec, block, id)
  {
    var i := |block.records|;
    ghost var metas := UserMetas(codec, block.records, id);
    assert metas[..i] == metas;
    while i > 0
      invariant 0 <= i <= |block.records|
      invariant LastSome(metas) == LastSome(metas[..i])
    {
      i := i - 1;
      assert metas[..i + 1][..i] == metas[..i];
      var found := UserMetaOf(codec, block.records[i], id);
      if found.Some? {
        var account := codec.userAccountOf(found.value);
        if account.None? {
          return Err(Deserialize);
        }
        return Ok(account.value);
      }
    }
    return Err(Internal);
  }

  /** The reverse scan over a block's records for the genesis metadata. */
  method FindGenesisMeta(codec: Codec, block: Block) returns (r: Result<GenesisAccountMeta>)
    ensures r == GenesisMetaFromBlock(codec, block)
  {
    var i := |block.records|;
    ghost var metas := GenesisMetas(codec, block);
    assert metas[..i] == metas;
    while i > 0
      invariant 0 <= i <= |block.records|
      invariant LastSome(metas) == LastSome(metas[..i])
    {
      i := i - 1;
      assert metas[..i + 1][..i] == metas[..i];
      var found := GenesisMetaOf(codec, block.records[i], block.index);
      if found.Some? {
        var gm := codec.genesisMetaOf(found.value);
        if gm.None? {
          return Err(Deserialize);
        }
        return Ok(gm.value);
      }
    }
    return Err(Internal);
  }

  function FeeCoefficient(coefficients: seq<nat>, i: nat): nat {
    if i < |coefficients| then coefficients[i] else 0
  }

  function StartedKiB(bytes: nat): nat {
    if bytes == 0 then 0 else (bytes + BYTES_PER_KIB - 1) / BYTES_PER_KIB
  }

  function Quadratic(a: nat, b: nat, c: nat, x: nat): nat {
    a + b * x + c * x * x
  }

  function MinFeeFromNonFreeSize(config: BlockChainConfig, nonFree: nat): (r: Result<u64>)
    ensures r.Ok? ==> r.value <= INT64_MAX
  {
    if config.minFeeCoefficients == [] then Err(TxValidation)
    else
      var a, b, c := FeeCoefficient(config.minFeeCoefficients, 0), FeeCoefficient(config.minFeeCoefficients, 1),
                     FeeCoefficient(config.minFeeCoefficients, 2);
      var fee := Quadratic(a, b, c, StartedKiB(nonFree));
      if fee > INT64_MAX then Err(TxValidation) else Ok(fee)
  }

  function NonFree(config: BlockChainConfig, size: nat): Result<nat> {
    if size > config.maxCustomMetaSize then Err(TxValidation)
    else if size <= config.freeCustomMetaSize then Ok(0)
    else Ok(size - config.freeCustomMetaSize)
  }

  /** The fee for `size` bytes of custom metadata. */
  function MinFeeForSize(config: BlockChainConfig, size: nat): (r: Result<u64>)
    ensures r.Ok? ==> r.value <= INT64_MAX
  {
    match NonFree(config, size)
    case Err(e) => Err(e)
    case Ok(nonFree) => MinFeeFromNonFreeSize(config, nonFree)
  }

  /** The billable size of a record that carries a serialized user account. */
  function BillableUserMeta(codec: Codec, config: BlockChainConfig, meta: Bytes): Result<nat> {
    if |meta| <= config.freeCustomMetaSize then Ok(0)
    else
      match codec.userAccountOf(meta)
      case None => Err(Deserialize)
      case Some(account) => Ok(|account.meta|)
  }

  function BillableGenesisMeta(codec: Codec, config: BlockChainConfig, meta: Bytes): Result<nat> {
    if |meta| <= config.freeCustomMetaSize then Ok(0)
    else
      match codec.genesisMetaOf(meta)
      case None => Err(Deserialize)
      case Some(gm) => Ok(|gm.genesis.meta|)
  }

  function BillableMetaSize(codec: Codec, config: BlockChainConfig, tx: TypedTx): Result<nat> {
    match tx
    case TxNewUser(_, _, _, _, meta, _) => BillableUserMeta(codec, config, meta)
    case TxUserUpdate(_, _, meta, _) => BillableUserMeta(codec, config, meta)
    case TxRenewal(wallet, _, meta) =>
      if wallet == ID_GENESIS then BillableGenesisMeta(codec, config, meta) else BillableUserMeta(codec, config, meta)
    case _ => Ok(|tx.meta|)
  }

  function MinFeeForTx(codec: Codec, config: BlockChainConfig, tx: TypedTx): (r: Result<u64>)
    ensures r.Ok? ==> r.value <= INT64_MAX
  {
    match BillableMetaSize(codec, config, tx)
    case Err(e) => Err(e)
    case Ok(size) => MinFeeForSize(config, size)
  }

  /** The fee for the metadata that an account carries on the ledger. */
  function MinFeeForAccount(codec: Codec, ledger: Ledger, config: BlockChainConfig, b: Accounts, id: Id): (r: Result<u64>)
    ensures r.Ok? ==> r.value <= INT64_MAX
  {
    if id !in b then Err(AccountNotFound)
    else
      match ReadBlock(ledger, b[id].blockId)
      case None => Err(BlockNotFound)
      case Some(node) =>
        if id == ID_GENESIS then
          match GenesisMetaFromBlock(codec, node.block)
          case Err(e) => Err(e)
          case Ok(gm) => MinFeeForSize(config, |gm.genesis.meta|)
        else
          match UserAccountFromBlock(codec, node.block, id)
          case Err(e) => Err(e)
          case Ok(account) => MinFeeForSize(config, |account.meta|)
  }

  lemma ProductMonotone(a: nat, x: nat, y: nat)
    requires x <= y
    ensures a * x <= a * y
  {
  }

  lemma QuadraticMonotone(a: nat, b: nat, c: nat, x: nat, y: nat)
    requires x <= y
    ensures Quadratic(a, b, c, x) <= Quadratic(a, b, c, y)
  {
    ProductMonotone(b, x, y);
    ProductMonotone(c, x, y);
    ProductMonotone(c * x, x, y);
    ProductMonotone(y, c * x, c * y);
  }

  lemma StartedKiBMonotone(x: nat, y: nat)
    requires x <= y
    ensures StartedKiB(x) <= StartedKiB(y)
  {
  }

  /** More metadata never costs less, and whatever fits in the free tier costs the constant coefficient. */
  lemma FeeMonotone(config: BlockChainConfig, small: nat, large: nat)
    requires small <= large && MinFeeForSize(config, large).Ok?
    ensures MinFeeForSize(config, small).Ok?
    ensures MinFeeForSize(config, small).value <= MinFeeForSize(config, large).value
    ensures small <= config.freeCustomMetaSize ==>
      MinFeeForSize(config, small).value == FeeCoefficient(config.minFeeCoefficients, 0)
  {
    var a, b, c := FeeCoefficient(config.minFeeCoefficients, 0), FeeCoefficient(config.minFeeCoefficients, 1),
                   FeeCoefficient(config.minFeeCoefficients, 2);
    var x := if small <= config.freeCustomMetaSize then 0 else small - config.freeCustomMetaSize;
    var y := if large <= config.freeCustomMetaSize then 0 else large - config.freeCustomMetaSize;
    StartedKiBMonotone(x, y);
    QuadraticMonotone(a, b, c, StartedKiB(x), StartedKiB(y));
    assert small <= config.freeCustomMetaSize ==> StartedKiB(x) == 0;
    hide Quadratic;
    hide StartedKiB;
  }

  // ----- where metadata is found -----

  /** A user account's metadata is in the record that opens, updates or renews it; the genesis account's in the genesis record of block 0, in
      configuration records and in its renewals. */
  lemma MetaCarriers(codec: Codec, rec: Record, id: Id, blockIndex: nat)
    requires codec.decode(rec).Some?
    ensures var tx := codec.decode(rec).value; var found := UserMetaOf(codec, rec, id);
      && (found.Some? <==> id != 0 && ((tx.TxNewUser? && tx.toWalletId == id) || ((tx.TxUserUpdate? || tx.TxRenewal?) && tx.walletId == id)))
      && (found.Some? ==> found.value == tx.meta)
    ensures var tx := codec.decode(rec).value; var found := GenesisMetaOf(codec, rec, blockIndex);
      && (found.Some? <==> (tx.TxGenesis? && blockIndex == 0) || tx.TxConfig? || (tx.TxRenewal? && tx.walletId == 0))
      && (found.Some? ==> found.value == tx.meta)
  {
  }

  /** Of several the last one counts. */
  lemma {:induction false} LastCounts<T>(found: seq<Option<T>>, i: nat)
    requires i < |found| && found[i].Some? && forall j | i < j < |found| :: found[j].None?
    ensures LastSome(found) == found[i]
    decreases |found|
  {
    if i < |found| - 1 {
      LastCounts(found[..|found| - 1], i);
    }
  }

  // ----- the value of the fee -----

  /** `k` is the number of KiB, the last of them perhaps begun only, by which the metadata exceeds what is free. */
  predicate StartedBeyond(k: nat, size: nat, free: nat) {
    if size <= free then k == 0 else (k - 1) * 1024 < size - free <= k * 1024
  }

  /** There is one such number for every size. */
  lemma StartedExists(size: nat, free: nat) returns (k: nat)
    ensures StartedBeyond(k, size, free) && forall j: nat | StartedBeyond(j, size, free) :: j == k
  {
    k := if size <= free then 0 else (size - free + 1023) / 1024;
  }

  /** The constant, the linear and the quadratic coefficient, as far as they are given. */
  function Given(coefficients: seq<nat>): (nat, nat, nat) {
    (if |coefficients| >= 1 then coefficients[0] else 0, if |coefficients| >= 2 then coefficients[1] else 0,
     if |coefficients| >= 3 then coefficients[2] else 0)
  }

  lemma StartedIs(bytes: nat, k: nat)
    requires if bytes == 0 then k == 0 else (k - 1) * 1024 < bytes <= k * 1024
    ensures StartedKiB(bytes) == k
  {
  }

  /** What the configuration charges for some bytes of metadata. */
  lemma FeeValueIff(config: BlockChainConfig, size: nat, k: nat)
    requires StartedBeyond(k, size, config.freeCustomMetaSize)
    ensures var (a, b, c) := Given(config.minFeeCoefficients); var value := a + b * k + c * k * k;
      && (MinFeeForSize(config, size).Ok? <==>
            config.minFeeCoefficients != [] && size <= config.maxCustomMetaSize && value <= 0x7fff_ffff_ffff_ffff)
      && (MinFeeForSize(config, size).Ok? ==> MinFeeForSize(config, size).value == value)
      && (MinFeeForSize(config, size).Err? ==> MinFeeForSize(config, size).error == TxValidation)
  {
    hide StartedKiB;
    StartedIs(if size <= config.freeCustomMetaSize then 0 else size - config.freeCustomMetaSize, k);
  }

  /** Four started KiB beyond what is free, at one, two and three: 57. */
  lemma FourKiB(config: BlockChainConfig)
    requires config.minFeeCoefficients == [1, 2, 3] && config.freeCustomMetaSize == 0 && config.maxCustomMetaSize == 10000
    ensures MinFeeForSize(config, 3073) == MinFeeForSize(config, 4096) == Ok(57) && MinFeeForSize(config, 4097) == Ok(86)
    ensures MinFeeForSize(config, 0) == Ok(1) && MinFeeForSize(config, 10000) == Ok(321) && MinFeeForSize(config, 10001).Err?
  {
  }

  /** The bytes a record is charged for: its own metadata, or, if it carries an account that takes more than what is free, the metadata
      inside it. */
  predicate ChargedFor(codec: Codec, config: BlockChainConfig, tx: TypedTx, size: nat) {
    if tx.TxDefault? || tx.TxGenesis? || tx.TxConfig? || tx.TxEndUser? then size == |tx.meta|
    else if |tx.meta| <= config.freeCustomMetaSize then size == 0
    else if tx.TxRenewal? && tx.walletId == ID_GENESIS then
      codec.genesisMetaOf(tx.meta).Some? && size == |codec.genesisMetaOf(tx.meta).value.genesis.meta|
    else codec.userAccountOf(tx.meta).Some? && size == |codec.userAccountOf(tx.meta).value.meta|
  }

  /** A record's minimum fee is that for the bytes it is charged for, and it has none only if it carries more than what is free and no
      account can be read from it. */
  lemma MinFeeForTxIs(codec: Codec, config: BlockChainConfig, tx: TypedTx)
    ensures forall size: nat | ChargedFor(codec, config, tx, size) :: MinFeeForTx(codec, config, tx) == MinFeeForSize(config, size)
    ensures (forall size: nat :: !ChargedFor(codec, config, tx, size)) ==> MinFeeForTx(codec, config, tx) == Err(Deserialize)
  {
    hide MinFeeForSize;
    var size := BillableMetaSize(codec, config, tx);
    assert size.Ok? ==> ChargedFor(codec, config, tx, size.value);
  }
}
