/** The chain's data model: wallets, accounts, configuration, transactions, blocks. */
module ChainTypes {
  import opened Numbers
  import opened Outcomes

  /** Wallet and token identifiers; they are compared and never computed with. */
  type Id = nat

  const ID_GENESIS: Id := 0
  const ID_FEE: Id := 1
  const ID_RESERVE: Id := 2
  const ID_RECYCLE: Id := 3
  const ID_FIRST_USER: Id := 0x4000_0000
  const INITIAL_TOKEN_SUPPLY: int := 0x4000_0000

  // ----- ids in the order an ordered map is iterated -----

  lemma {:induction false} HasLeast(ids: set<Id>) returns (least: Id)
    requires ids != {}
    ensures least in ids && forall id | id in ids :: least <= id
  {
    var some :| some in ids;
    if ids == {some} {
      least := some;
    } else {
      var other := HasLeast(ids - {some});
      least := if some <= other then some else other;
      assert forall id | id in ids :: id == some || id in ids - {some};
    }
  }

  function Least(ids: set<Id>): (least: Id)
    requires ids != {}
    ensures least in ids && forall id | id in ids :: least <= id
  {
    assert exists least :: least in ids && forall id | id in ids :: least <= id by {
      var least := HasLeast(ids);
    }
    var least :| least in ids && forall id | id in ids :: least <= id;
    least
  }

  function Sorted(ids: set<Id>): (r: seq<Id>)
    ensures |r| == |ids| && forall id :: id in r <==> id in ids
    decreases |ids|
  {
    if ids == {} then [] else [Least(ids)] + Sorted(ids - {Least(ids)})
  }

  lemma SortedStarts(ids: set<Id>, least: Id)
    requires least in ids && forall id | id in ids :: least <= id
    ensures Sorted(ids) == [least] + Sorted(ids - {least})
  {
    var id := Least(ids);
    assert id == least;
  }

  lemma {:induction false} SortedIncreases(ids: set<Id>)
    ensures forall i, j | 0 <= i < j < |Sorted(ids)| :: Sorted(ids)[i] < Sorted(ids)[j]
    decreases |ids|
  {
    hide Sorted;
    if ids == {} {
      assert |Sorted(ids)| == 0;
    } else {
      var least := Least(ids);
      SortedIncreases(ids - {least});
      SortedStarts(ids, least);
      PutFirst(least, Sorted(ids - {least}));
    }
  }

  lemma PutFirst(least: Id, rest: seq<Id>)
    requires forall i, j | 0 <= i < j < |rest| :: rest[i] < rest[j]
    requires forall id | id in rest :: least < id
    ensures var all := [least] + rest; forall i, j | 0 <= i < j < |all| :: all[i] < all[j]
  {
    var all := [least] + rest;
    forall i, j | 0 <= i < j < |all|
      ensures all[i] < all[j]
    {
      assert all[j] == rest[j - 1] && all[j] in rest;
      assert i > 0 ==> all[i] == rest[i - 1];
    }
  }

  const TK_ED25519: nat := 1

  type Balances = map<Id, int>

  datatype Wallet = Wallet(balances: Balances, publicKeys: seq<Bytes>, minSignatures: nat, keyType: nat)

  datatype UserAccount = UserAccount(wallet: Wallet, meta: Bytes)

  /** `blockId` is the block of the last registration or renewal of the account. */
  datatype Account = Account(id: Id, wallet: Wallet, blockId: nat)

  datatype CheckpointConfig = CheckpointConfig(minBlocks: u64, minAgeSeconds: u64)

  datatype BlockChainConfig = BlockChainConfig(
    genesisTime: int, slotDuration: u64, slotsPerEpoch: u64, maxCustomMetaSize: nat, maxTransactionsPerBlock: nat,
    minFeeCoefficients: seq<nat>, freeCustomMetaSize: nat, checkpoint: CheckpointConfig,
    maxValidationTimespanSeconds: nat)

  datatype GenesisAccountMeta = GenesisAccountMeta(config: BlockChainConfig, genesis: UserAccount)

  /** Client-chosen id (0 = disabled) and validation window in seconds. */
  datatype Window = Window(idempotentId: u64, tsMin: int, tsMax: int)

  datatype TypedTx =
    | TxDefault(tokenId: Id, fromWalletId: Id, toWalletId: Id, amount: u64, fee: u64, meta: Bytes, window: Window)
    | TxGenesis(fee: u64, meta: Bytes)
    | TxNewUser(fromWalletId: Id, toWalletId: Id, amount: u64, fee: u64, meta: Bytes, window: Window)
    | TxConfig(fee: u64, meta: Bytes, window: Window)
    | TxUserUpdate(walletId: Id, fee: u64, meta: Bytes, window: Window)
    | TxRenewal(walletId: Id, fee: u64, meta: Bytes)
    | TxEndUser(walletId: Id, fee: u64, meta: Bytes)

  datatype Record = Record(recordType: nat, data: Bytes, signatures: seq<Bytes>)

  datatype Block = Block(
    index: nat, timestamp: int, records: seq<Record>, previousHash: Bytes, nonce: nat, slot: nat, slotLeader: Id,
    txIndex: nat)

  datatype ChainNode = ChainNode(block: Block, hash: Bytes)

  datatype Checkpoint = Checkpoint(lastId: nat, currentId: nat)

  /** What the chain takes from other components: payload codecs, hashing, signature verification and the leader of
      a slot and epoch for given stakes.
      The chain's theorems hold for every choice of these functions. */
  datatype Codec = Codec(
    decode: Record -> Option<TypedTx>,
    encode: TypedTx -> Record,
    userAccountOf: Bytes -> Option<UserAccount>,
    genesisMetaOf: Bytes -> Option<GenesisAccountMeta>,
    packUserAccount: UserAccount -> Bytes,
    packGenesisMeta: GenesisAccountMeta -> Bytes,
    hashOf: Block -> Bytes,
    verify: (nat, Bytes, Bytes, Bytes) -> bool,
    slotLeader: (map<Id, u64>, nat, nat) -> Id)
}
