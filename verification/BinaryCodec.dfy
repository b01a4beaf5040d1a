/** The chain's codec as the program has it, and what hashing the stored form of blocks gives. */
module BinaryCodec {
  import opened Numbers
  import opened Outcomes
  import opened ChainTypes
  import opened Archive
  import opened ChainCodec
  import opened AccountCodec

  function EncodeRecord(tx: TypedTx): Record {
    if TxFits(tx) then Record(TypeOf(tx), TxBytes(tx), []) else Record(0, [], [])
  }

  function PackAccount(a: UserAccount): Bytes {
    if UserAccountFits(a) then UserAccountBytes(a) else []
  }

  function PackGenesis(m: GenesisAccountMeta): Bytes {
    if GenesisMetaFits(m) then GenesisMetaBytes(m) else []
  }

  function HashBlock(digest: Bytes -> Bytes, b: Block): Bytes {
    if BlockFits(b) then digest(BlockBytes(b)) else []
  }

  /** The codec the chain is run with, over a digest, a signature check and a leader choice. */
  function Binary(digest: Bytes -> Bytes, verify: (nat, Bytes, Bytes, Bytes) -> bool,
                  leader: (map<Id, u64>, nat, nat) -> Id): Codec
  {
    Codec(r => DecodeRecord(r), tx => EncodeRecord(tx), bytes => UserAccountFromBytes(bytes),
          bytes => GenesisMetaFromBytes(bytes), a => PackAccount(a), m => PackGenesis(m),
          b => HashBlock(digest, b), verify, leader)
  }

  /** What the chain relies on: packed transactions and accounts read back as themselves. */
  lemma BinaryReadsBack(digest: Bytes -> Bytes, verify: (nat, Bytes, Bytes, Bytes) -> bool,
                        leader: (map<Id, u64>, nat, nat) -> Id, tx: TypedTx, a: UserAccount, m: GenesisAccountMeta)
    ensures var codec := Binary(digest, verify, leader);
      && (TxFits(tx) && |tx.meta| <= MAX_STRING_SIZE ==> codec.decode(codec.encode(tx)) == Some(tx))
      && (UserAccountFits(a) && UserAccountSmall(a) ==> codec.userAccountOf(codec.packUserAccount(a)) == Some(a))
      && (GenesisMetaFits(m) && UserAccountSmall(m.genesis) ==> codec.genesisMetaOf(codec.packGenesisMeta(m)) == Some(m))
  {
    hide TxFits, TxBytes, DecodeRecord, UserAccountFits, UserAccountBytes, UserAccountFromBytes, UserAccountSmall,
      GenesisMetaFits, GenesisMetaBytes, GenesisMetaFromBytes;
    if TxFits(tx) {
      TxRoundTrip(tx, []);
    }
    if UserAccountFits(a) {
      UserAccountRoundTrip(a);
    }
    if GenesisMetaFits(m) {
      GenesisMetaRoundTrip(m);
    }
  }

  /** A record reads back as its transaction whatever signatures it gets. */
  lemma SignedReadsBack(digest: Bytes -> Bytes, verify: (nat, Bytes, Bytes, Bytes) -> bool,
                        leader: (map<Id, u64>, nat, nat) -> Id, tx: TypedTx, signatures: seq<Bytes>)
    requires TxFits(tx) && |tx.meta| <= MAX_STRING_SIZE
    ensures var codec := Binary(digest, verify, leader);
      codec.decode(codec.encode(tx).(signatures := signatures)) == Some(tx)
  {
    hide TxFits, TxBytes, DecodeRecord;
    TxRoundTrip(tx, signatures);
  }

  /** A digest without collisions. */
  ghost predicate CollisionFree(digest: Bytes -> Bytes) {
    forall a, b :: digest(a) == digest(b) ==> a == b
  }

  lemma HashDeterminesBlock(digest: Bytes -> Bytes, a: Block, b: Block)
    requires CollisionFree(digest) && BlockFits(a) && BlockFits(b) && BlockSmall(a)
    requires HashBlock(digest, a) == HashBlock(digest, b)
    ensures a == b
  {
    hide BlockFits, BlockSmall, BlockBytes;
    BlockBytesInjective(a, b);
  }

  /** Each node carries the hash of its block, and each block names the hash before it. */
  ghost predicate HashChained(digest: Bytes -> Bytes, nodes: seq<ChainNode>) {
    && (forall i | 0 <= i < |nodes| ::
         BlockFits(nodes[i].block) && BlockSmall(nodes[i].block) && nodes[i].hash == HashBlock(digest, nodes[i].block))
    && (forall i | 0 < i < |nodes| :: nodes[i].block.previousHash == nodes[i - 1].hash)
  }

  /** The last hash fixes the whole history: two linked chains of the same length that end in the same hash are equal. */
  lemma {:induction false} LastHashDeterminesHistory(digest: Bytes -> Bytes, a: seq<ChainNode>, b: seq<ChainNode>)
    requires CollisionFree(digest) && HashChained(digest, a) && HashChained(digest, b)
    requires |a| == |b| > 0 && a[|a| - 1].hash == b[|b| - 1].hash
    ensures a == b
  {
    hide HashBlock, BlockFits, BlockSmall, CollisionFree;
    var n := |a| - 1;
    HashDeterminesBlock(digest, a[n].block, b[n].block);
    if n > 0 {
      LastHashDeterminesHistory(digest, a[..n], b[..n]);
    }
    assert a == a[..n] + [a[n]] && b == b[..n] + [b[n]];
  }
}
