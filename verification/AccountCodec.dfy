/** The packed metadata of accounts: wallets with their sorted balances, user accounts and the genesis account's
    configuration, behind a version that must match. */
module AccountCodec {
  import opened Numbers
  import opened Outcomes
  import opened Sequences
  import opened Words
  import opened Archive
  import opened ChainTypes
  import opened ChainCodec

  // ----- balances: an ordered map -----

  /** The entries in the order the map is iterated. */
  function Entries(b: Balances): (r: seq<(Id, int)>)
    ensures |r| == |b|
  {
    if b == map[] then []
    else
      var id := Least(b.Keys);
      assert |b - {id}| == |b| - 1 by { RemoveOne(b, id); }
      [(id, b[id])] + Entries(b - {id})
  }

  lemma RemoveOne(b: Balances, id: Id)
    requires id in b
    ensures |b - {id}| == |b| - 1
  {
    assert (b - {id}).Keys == b.Keys - {id};
    assert |b| == |b.Keys| && |b - {id}| == |(b - {id}).Keys|;
  }

  /** Reading enters one pair after another; a later pair of the same key wins. */
  function FromEntries(es: seq<(Id, int)>): Balances {
    if es == [] then map[] else FromEntries(es[..|es| - 1])[es[|es| - 1].0 := es[|es| - 1].1]
  }

  lemma {:induction false} FromEntriesFront(e: (Id, int), es: seq<(Id, int)>)
    ensures FromEntries([e] + es) == map[e.0 := e.1] + FromEntries(es)
  {
    if es == [] {
      assert [e] + es == [e] && [e][..0] == [];
    } else {
      var n := |es| - 1;
      FromEntriesFront(e, es[..n]);
      assert ([e] + es)[..n + 1] == [e] + es[..n];
    }
  }

  lemma {:induction false} EntriesRoundTrip(b: Balances)
    ensures FromEntries(Entries(b)) == b
  {
    if b != map[] {
      var id := Least(b.Keys);
      EntriesRoundTrip(b - {id});
      FromEntriesFront((id, b[id]), Entries(b - {id}));
      assert map[id := b[id]] + (b - {id}) == b;
    }
  }

  /** The packed order of a map's entries is strictly increasing, so one map has one packed form. */
  lemma {:induction false} EntriesIncrease(b: Balances)
    ensures forall i | 0 <= i < |Entries(b)| :: Entries(b)[i].0 in b
    ensures forall i, j | 0 <= i < j < |Entries(b)| :: Entries(b)[i].0 < Entries(b)[j].0
  {
    if b != map[] {
      var id := Least(b.Keys);
      var later := Entries(b - {id});
      EntriesIncrease(b - {id});
      assert Entries(b) == [(id, b[id])] + later;
      forall i | 0 <= i < |later| ensures id < later[i].0 && later[i].0 in b {
        assert later[i].0 in b - {id};
      }
    }
  }

  const PAIR: Shape := Struct([Uint(8), Int64])

  function PairData(e: (Id, int)): Data {
    Items([Number(e.0), Number(e.1)])
  }

  function PairOf(d: Data): (Id, int) {
    (NatAt(d, 0), IntAt(d, 1))
  }

  function PairsData(es: seq<(Id, int)>): Data {
    Items(seq(|es|, i requires 0 <= i < |es| => PairData(es[i])))
  }

  function PairsOf(d: Data): seq<(Id, int)> {
    seq(|ItemsOf(d)|, i requires 0 <= i < |ItemsOf(d)| => PairOf(ItemsOf(d)[i]))
  }

  lemma PairShaped(e: (Id, int))
    requires e.0 < TWO_64 && InInt64(e.1)
    ensures HasShape(PAIR, PairData(e)) && Small(PAIR, PairData(e)) && PairOf(PairData(e)) == e
  {
    hide Pow256;
    Widths();
    var fields, ds := [Uint(8), Int64], PairData(e).items;
    EachField(fields, ds);
    assert HasShape(fields[0], ds[0]) && HasShape(fields[1], ds[1]);
    assert HaveShapes(fields, ds);
    assert Small(fields[0], ds[0]) && Small(fields[1], ds[1]);
  }

  predicate BalancesFit(b: Balances) {
    |b| < TWO_64 && forall id | id in b :: id < TWO_64 && InInt64(b[id])
  }

  lemma {:induction false} EntriesFit(b: Balances)
    requires forall id | id in b :: id < TWO_64 && InInt64(b[id])
    ensures forall i | 0 <= i < |Entries(b)| :: Entries(b)[i].0 < TWO_64 && InInt64(Entries(b)[i].1)
  {
    if b != map[] {
      EntriesFit(b - {Least(b.Keys)});
    }
  }

  lemma BalancesShaped(b: Balances)
    requires BalancesFit(b)
    ensures HasShape(Vector(PAIR), PairsData(Entries(b))) && Small(Vector(PAIR), PairsData(Entries(b)))
    ensures FromEntries(PairsOf(PairsData(Entries(b)))) == b
  {
    hide PairData, PairOf, HasShape, Small;
    var es := Entries(b);
    var ds := PairsData(es).items;
    EntriesFit(b);
    EntriesRoundTrip(b);
    EachItem(PAIR, ds);
    forall i | 0 <= i < |es| ensures HasShape(PAIR, ds[i]) && Small(PAIR, ds[i]) && PairOf(ds[i]) == es[i] {
      PairShaped(es[i]);
    }
    VectorShaped(PAIR, ds);
    assert PairsOf(PairsData(es)) == es;
  }

  lemma VectorShaped(item: Shape, ds: seq<Data>)
    ensures HasShape(Vector(item), Items(ds)) <==> |ds| < TWO_64 && EachHasShape(item, ds)
    ensures EachHasShape(item, ds) && |ds| < TWO_64 ==> (Small(Vector(item), Items(ds)) <==> EachSmall(item, ds))
  {
  }

  // ----- user accounts -----

  const WALLET_FIELDS: seq<Shape> := [Vector(PAIR), Vector(Text), Uint(1), Uint(1)]
  const WALLET: Shape := Struct(WALLET_FIELDS)
  const USER_ACCOUNT_FIELDS: seq<Shape> := [WALLET, Text]
  const USER_ACCOUNT: Shape := Struct(USER_ACCOUNT_FIELDS)

  predicate WalletFits(w: Wallet) {
    BalancesFit(w.balances) && TextsFit(w.publicKeys) && w.minSignatures < 0x100 && w.keyType < 0x100
  }

  predicate UserAccountFits(a: UserAccount) {
    WalletFits(a.wallet) && |a.meta| < TWO_64
  }

  predicate UserAccountSmall(a: UserAccount) {
    TextsSmall(a.wallet.publicKeys) && |a.meta| <= MAX_STRING_SIZE
  }

  function WalletData(w: Wallet): Data {
    Items([PairsData(Entries(w.balances)), TextsData(w.publicKeys), Number(w.minSignatures), Number(w.keyType)])
  }

  function WalletOf(d: Data): Wallet {
    Wallet(FromEntries(PairsOf(At(d, 0))), TextsOf(At(d, 1)), NatAt(d, 2), NatAt(d, 3))
  }

  lemma WalletShaped(w: Wallet)
    requires WalletFits(w)
    ensures HasShape(WALLET, WalletData(w)) && (Small(WALLET, WalletData(w)) <==> TextsSmall(w.publicKeys))
    ensures WalletOf(WalletData(w)) == w
  {
    hide Pow256, BalancesFit, TextsFit, TextsSmall, Entries, FromEntries, PairsData, PairsOf, TextsData, TextsOf, HaveShapes, AllSmall;
    Widths();
    BalancesShaped(w.balances);
    TextsShaped(w.publicKeys);
    var ds := WalletData(w).items;
    EachField(WALLET_FIELDS, ds);
    assert HasShape(WALLET_FIELDS[0], ds[0]) && HasShape(WALLET_FIELDS[1], ds[1]);
    assert HasShape(WALLET_FIELDS[2], ds[2]) && HasShape(WALLET_FIELDS[3], ds[3]);
    assert HaveShapes(WALLET_FIELDS, ds);
    assert Small(WALLET_FIELDS[0], ds[0]) && (Small(WALLET_FIELDS[1], ds[1]) <==> TextsSmall(w.publicKeys));
    assert Small(WALLET_FIELDS[2], ds[2]) && Small(WALLET_FIELDS[3], ds[3]);
  }

  function UserAccountData(a: UserAccount): Data {
    Items([WalletData(a.wallet), Str(a.meta)])
  }

  function UserAccountOf(d: Data): UserAccount {
    UserAccount(WalletOf(At(d, 0)), StrAt(d, 1))
  }

  lemma UserAccountShaped(a: UserAccount)
    requires UserAccountFits(a)
    ensures HasShape(USER_ACCOUNT, UserAccountData(a))
    ensures Small(USER_ACCOUNT, UserAccountData(a)) <==> UserAccountSmall(a)
    ensures UserAccountOf(UserAccountData(a)) == a
  {
    hide WalletFits, WalletData, WalletOf, TextsSmall, HaveShapes, AllSmall;
    WalletShaped(a.wallet);
    var ds := UserAccountData(a).items;
    EachField(USER_ACCOUNT_FIELDS, ds);
    assert HasShape(USER_ACCOUNT_FIELDS[0], ds[0]) && HasShape(USER_ACCOUNT_FIELDS[1], ds[1]);
    assert HaveShapes(USER_ACCOUNT_FIELDS, ds);
    assert Small(USER_ACCOUNT_FIELDS[0], ds[0]) <==> TextsSmall(a.wallet.publicKeys);
    assert Small(USER_ACCOUNT_FIELDS[1], ds[1]) <==> |a.meta| <= MAX_STRING_SIZE;
  }

  // ----- the genesis account's metadata -----

  const CHECKPOINT: Shape := Struct([Uint(8), Uint(8)])
  const CONFIG_FIELDS: seq<Shape> :=
    [Int64, Uint(8), Uint(8), Uint(8), Uint(8), Vector(Uint(2)), Uint(4), CHECKPOINT, Uint(8)]
  const CONFIG: Shape := Struct(CONFIG_FIELDS)
  const GENESIS_META_FIELDS: seq<Shape> := [CONFIG, USER_ACCOUNT]
  const GENESIS_META: Shape := Struct(GENESIS_META_FIELDS)

  predicate ConfigFits(c: BlockChainConfig) {
    && InInt64(c.genesisTime) && c.slotsPerEpoch < TWO_64 && c.maxCustomMetaSize < TWO_64
    && c.maxTransactionsPerBlock < TWO_64 && c.freeCustomMetaSize < 0x1_0000_0000 && c.maxValidationTimespanSeconds < TWO_64
    && |c.minFeeCoefficients| < TWO_64
    && forall i | 0 <= i < |c.minFeeCoefficients| :: c.minFeeCoefficients[i] < 0x1_0000
  }

  function CoefficientsData(cs: seq<nat>): Data {
    Items(seq(|cs|, i requires 0 <= i < |cs| => Number(cs[i])))
  }

  function NatOf(d: Data): nat {
    if d.Number? && d.n >= 0 then d.n else 0
  }

  function CoefficientsOf(d: Data): seq<nat> {
    seq(|ItemsOf(d)|, i requires 0 <= i < |ItemsOf(d)| => NatOf(ItemsOf(d)[i]))
  }

  lemma CoefficientsShaped(cs: seq<nat>)
    requires |cs| < TWO_64 && forall i | 0 <= i < |cs| :: cs[i] < 0x1_0000
    ensures HasShape(Vector(Uint(2)), CoefficientsData(cs)) && Small(Vector(Uint(2)), CoefficientsData(cs))
    ensures CoefficientsOf(CoefficientsData(cs)) == cs
  {
    Widths();
    var ds := CoefficientsData(cs).items;
    EachItem(Uint(2), ds);
    assert forall i | 0 <= i < |cs| :: HasShape(Uint(2), ds[i]) && Small(Uint(2), ds[i]);
    VectorShaped(Uint(2), ds);
  }

  function CheckpointData(c: CheckpointConfig): Data {
    Items([Number(c.minBlocks), Number(c.minAgeSeconds)])
  }

  lemma CheckpointShaped(c: CheckpointConfig)
    ensures HasShape(CHECKPOINT, CheckpointData(c)) && Small(CHECKPOINT, CheckpointData(c))
  {
    hide Pow256;
    Widths();
    var fields, ds := [Uint(8), Uint(8)], CheckpointData(c).items;
    EachField(fields, ds);
    assert HasShape(fields[0], ds[0]) && HasShape(fields[1], ds[1]);
    assert HaveShapes(fields, ds);
    assert Small(fields[0], ds[0]) && Small(fields[1], ds[1]);
  }

  function ConfigData(c: BlockChainConfig): Data {
    Items([Number(c.genesisTime), Number(c.slotDuration), Number(c.slotsPerEpoch), Number(c.maxCustomMetaSize),
           Number(c.maxTransactionsPerBlock), CoefficientsData(c.minFeeCoefficients), Number(c.freeCustomMetaSize),
           CheckpointData(c.checkpoint), Number(c.maxValidationTimespanSeconds)])
  }

  function ConfigOf(d: Data): BlockChainConfig {
    BlockChainConfig(IntAt(d, 0), U64At(d, 1), U64At(d, 2), NatAt(d, 3), NatAt(d, 4), CoefficientsOf(At(d, 5)), NatAt(d, 6),
                     CheckpointConfig(U64At(At(d, 7), 0), U64At(At(d, 7), 1)), NatAt(d, 8))
  }

  lemma ConfigFieldShaped(c: BlockChainConfig, i: nat)
    requires ConfigFits(c) && i < 9
    ensures HasShape(CONFIG_FIELDS[i], ConfigData(c).items[i]) && Small(CONFIG_FIELDS[i], ConfigData(c).items[i])
  {
    hide Pow256, CoefficientsData, CheckpointData;
    Widths();
    if i == 5 {
      CoefficientsShaped(c.minFeeCoefficients);
    } else if i == 7 {
      CheckpointShaped(c.checkpoint);
    }
  }

  lemma ConfigShaped(c: BlockChainConfig)
    requires ConfigFits(c)
    ensures HasShape(CONFIG, ConfigData(c)) && Small(CONFIG, ConfigData(c)) && ConfigOf(ConfigData(c)) == c
  {
    hide CoefficientsData, CoefficientsOf, HasShape, Small, HaveShapes, AllSmall;
    CoefficientsShaped(c.minFeeCoefficients);
    var ds := ConfigData(c).items;
    EachField(CONFIG_FIELDS, ds);
    forall i | 0 <= i < 9 ensures HasShape(CONFIG_FIELDS[i], ds[i]) && Small(CONFIG_FIELDS[i], ds[i]) {
      ConfigFieldShaped(c, i);
    }
    StructShaped(CONFIG_FIELDS, ds);
  }

  predicate GenesisMetaFits(m: GenesisAccountMeta) {
    ConfigFits(m.config) && UserAccountFits(m.genesis)
  }

  function GenesisMetaData(m: GenesisAccountMeta): Data {
    Items([ConfigData(m.config), UserAccountData(m.genesis)])
  }

  function GenesisMetaOf(d: Data): GenesisAccountMeta {
    GenesisAccountMeta(ConfigOf(At(d, 0)), UserAccountOf(At(d, 1)))
  }

  lemma GenesisMetaShaped(m: GenesisAccountMeta)
    requires GenesisMetaFits(m)
    ensures HasShape(GENESIS_META, GenesisMetaData(m))
    ensures Small(GENESIS_META, GenesisMetaData(m)) <==> UserAccountSmall(m.genesis)
    ensures GenesisMetaOf(GenesisMetaData(m)) == m
  {
    hide ConfigFits, ConfigData, ConfigOf, UserAccountFits, UserAccountData, UserAccountOf, UserAccountSmall,
      HasShape, Small, HaveShapes, AllSmall;
    ConfigShaped(m.config);
    UserAccountShaped(m.genesis);
    var ds := GenesisMetaData(m).items;
    EachField(GENESIS_META_FIELDS, ds);
    assert HasShape(GENESIS_META_FIELDS[0], ds[0]) && HasShape(GENESIS_META_FIELDS[1], ds[1]);
    assert Small(GENESIS_META_FIELDS[0], ds[0]);
    assert Small(GENESIS_META_FIELDS[1], ds[1]) <==> UserAccountSmall(m.genesis);
    StructShaped(GENESIS_META_FIELDS, ds);
  }

  // ----- versioned forms -----

  const VERSION := 1

  function Versioned(shape: Shape, d: Data): Bytes
    requires HasShape(shape, d)
  {
    BigEndian(VERSION, 4) + Pack(shape, d)
  }

  /** Only the exact version is read. */
  function FromVersioned(shape: Shape, bytes: Bytes): Option<Data> {
    match ReadUint(bytes, 4)
    case None => None
    case Some((version, rest)) =>
      if version != VERSION then None
      else
        match Unpack(shape, rest)
        case None => None
        case Some((d, _)) => Some(d)
  }

  lemma VersionedRoundTrip(shape: Shape, d: Data)
    requires HasShape(shape, d)
    ensures FromVersioned(shape, Versioned(shape, d)) == if Small(shape, d) then Some(d) else None
  {
    hide Pack, Unpack, BigEndian, Pow256, ReadUint, HasShape, Small;
    Widths();
    UintRoundTrip(VERSION, 4, Pack(shape, d));
    PackRoundTrip(shape, d, []);
    assert Pack(shape, d) + [] == Pack(shape, d);
  }

  function UserAccountBytes(a: UserAccount): Bytes
    requires UserAccountFits(a)
  {
    UserAccountShaped(a);
    Versioned(USER_ACCOUNT, UserAccountData(a))
  }

  function UserAccountFromBytes(bytes: Bytes): Option<UserAccount> {
    match FromVersioned(USER_ACCOUNT, bytes)
    case None => None
    case Some(d) => Some(UserAccountOf(d))
  }

  /** A packed user account reads back as itself exactly when its keys and metadata are within the reader's limit. */
  lemma UserAccountRoundTrip(a: UserAccount)
    requires UserAccountFits(a)
    ensures UserAccountFromBytes(UserAccountBytes(a)) == if UserAccountSmall(a) then Some(a) else None
  {
    hide Versioned, FromVersioned, UserAccountFits, UserAccountData, UserAccountOf, UserAccountSmall, HasShape, Small;
    UserAccountShaped(a);
    VersionedRoundTrip(USER_ACCOUNT, UserAccountData(a));
  }

  function GenesisMetaBytes(m: GenesisAccountMeta): Bytes
    requires GenesisMetaFits(m)
  {
    GenesisMetaShaped(m);
    Versioned(GENESIS_META, GenesisMetaData(m))
  }

  function GenesisMetaFromBytes(bytes: Bytes): Option<GenesisAccountMeta> {
    match FromVersioned(GENESIS_META, bytes)
    case None => None
    case Some(d) => Some(GenesisMetaOf(d))
  }

  lemma GenesisMetaRoundTrip(m: GenesisAccountMeta)
    requires GenesisMetaFits(m)
    ensures GenesisMetaFromBytes(GenesisMetaBytes(m)) == if UserAccountSmall(m.genesis) then Some(m) else None
  {
    hide Versioned, FromVersioned, GenesisMetaFits, GenesisMetaData, GenesisMetaOf, UserAccountSmall, HasShape, Small;
    GenesisMetaShaped(m);
    VersionedRoundTrip(GENESIS_META, GenesisMetaData(m));
  }
}
