/** How long packed accounts are, and what ranges read values have: the program's codec meets what the chain theorems assume
    of decoded numbers. */
module PackedSizes {
  import opened Numbers
  import opened Outcomes
  import opened Sequences
  import opened Words
  import opened Archive
  import opened ChainTypes
  import opened ChainCodec
  import opened AccountCodec
  import opened BinaryCodec
  import opened AtMostOnce
  import opened BalanceBounds
  import opened TxHandlers

  // ----- lengths -----

  /** The bytes that a vector's elements or a structure's fields take. */
  function Weight(shape: Shape, d: Data): nat
    requires HasShape(shape, d)
    decreases shape, 0
  {
    match shape
    case Uint(width) => width
    case Int64 => 8
    case Flag => 1
    case Text => 8 + |d.s|
    case Vector(item) => 8 + ItemsWeight(item, d.items)
    case Struct(fields) => FieldsWeight(fields, d.items)
  }

  function ItemsWeight(item: Shape, ds: seq<Data>): nat
    requires EachHasShape(item, ds)
    decreases item, |ds| + 1
  {
    if ds == [] then 0 else Weight(item, ds[0]) + ItemsWeight(item, ds[1..])
  }

  function FieldsWeight(fields: seq<Shape>, ds: seq<Data>): nat
    requires HaveShapes(fields, ds)
    decreases fields, 0
  {
    if fields == [] then 0 else Weight(fields[0], ds[0]) + FieldsWeight(fields[1..], ds[1..])
  }

  lemma {:induction false} PackedLength(shape: Shape, d: Data)
    requires HasShape(shape, d)
    ensures |Pack(shape, d)| == Weight(shape, d)
    decreases shape, 0
  {
    match shape {
      case Vector(item) => PackedItemsLength(item, d.items);
      case Struct(fields) => PackedFieldsLength(fields, d.items);
      case _ =>
    }
  }

  lemma {:induction false} PackedItemsLength(item: Shape, ds: seq<Data>)
    requires EachHasShape(item, ds)
    ensures |PackItems(item, ds)| == ItemsWeight(item, ds)
    decreases item, |ds| + 1
  {
    if ds != [] {
      PackedLength(item, ds[0]);
      PackedItemsLength(item, ds[1..]);
    }
  }

  lemma {:induction false} PackedFieldsLength(fields: seq<Shape>, ds: seq<Data>)
    requires HaveShapes(fields, ds)
    ensures |PackFields(fields, ds)| == FieldsWeight(fields, ds)
    decreases fields, 0
  {
    if fields != [] {
      PackedLength(fields[0], ds[0]);
      PackedFieldsLength(fields[1..], ds[1..]);
    }
  }

  function KeysLength(keys: seq<Bytes>): nat {
    if keys == [] then 0 else 8 + |keys[0]| + KeysLength(keys[1..])
  }

  lemma {:induction false} PairsWeigh(ds: seq<Data>)
    requires EachHasShape(PAIR, ds)
    ensures ItemsWeight(PAIR, ds) == 16 * |ds|
    decreases |ds|
  {
    if ds != [] {
      PairsWeigh(ds[1..]);
      PairWeighs(ds[0]);
    }
  }

  lemma PairWeighs(d: Data)
    requires HasShape(PAIR, d)
    ensures Weight(PAIR, d) == 16
  {
    var fields := [Uint(8), Int64];
    assert FieldsWeight(fields, d.items) == 8 + FieldsWeight(fields[1..], d.items[1..]);
    assert fields[1..] == [Int64] && [Int64][1..] == [];
    assert FieldsWeight(fields[1..], d.items[1..]) == 8 + FieldsWeight([], d.items[1..][1..]);
  }

  lemma {:induction false} TextsWeigh(ss: seq<Bytes>)
    requires EachHasShape(Text, TextsData(ss).items)
    ensures ItemsWeight(Text, TextsData(ss).items) == KeysLength(ss)
    decreases |ss|
  {
    if ss != [] {
      assert TextsData(ss).items[1..] == TextsData(ss[1..]).items;
      TextsWeigh(ss[1..]);
    }
  }

  /** The packed length of a user account. */
  lemma UserAccountLength(a: UserAccount)
    requires UserAccountFits(a)
    ensures |UserAccountBytes(a)| == 30 + 16 * |a.wallet.balances| + KeysLength(a.wallet.publicKeys) + |a.meta|
  {
    hide Entries, BalancesFit, TextsFit, HasShape, Pack, BigEndian, TextsData, PairsData;
    var w := a.wallet;
    UserAccountShaped(a);
    WalletShaped(w);
    var d := UserAccountData(a);
    PackedLength(USER_ACCOUNT, d);
    var wd := WalletData(w);
    TwoFields(WALLET, Text, wd, Str(a.meta));
    BalancesShaped(w.balances);
    TextsShaped(w.publicKeys);
    FourFields(w);
  }

  lemma TwoFields(first: Shape, second: Shape, d: Data, e: Data)
    requires HasShape(Struct([first, second]), Items([d, e]))
    ensures HasShape(first, d) && HasShape(second, e)
    ensures Weight(Struct([first, second]), Items([d, e])) == Weight(first, d) + Weight(second, e)
  {
    var fields, ds := [first, second], [d, e];
    assert fields[1..] == [second] && ds[1..] == [e] && [second][1..] == [] && [e][1..] == [];
    assert HaveShapes([second], [e]);
    assert FieldsWeight(fields, ds) == Weight(first, d) + FieldsWeight([second], [e]);
    assert FieldsWeight([second], [e]) == Weight(second, e) + FieldsWeight([], []);
  }

  lemma FourFields(w: Wallet)
    requires WalletFits(w)
    ensures HasShape(WALLET, WalletData(w))
    ensures Weight(WALLET, WalletData(w)) == 18 + 16 * |w.balances| + KeysLength(w.publicKeys)
  {
    hide Entries, BalancesFit, TextsFit, EachHasShape, ItemsWeight;
    WalletShaped(w);
    BalancesShaped(w.balances);
    TextsShaped(w.publicKeys);
    var ds := WalletData(w).items;
    EachField(WALLET_FIELDS, ds);
    PairsWeigh(ds[0].items);
    TextsWeigh(w.publicKeys);
    ThreeFields(WALLET_FIELDS[1..], ds[1..]);
    assert HasShape(WALLET_FIELDS[0], ds[0]) && HasShape(WALLET_FIELDS[1], ds[1]);
    VectorWeighs(PAIR, ds[0].items);
    VectorWeighs(Text, ds[1].items);
    assert FieldsWeight(WALLET_FIELDS, ds) == Weight(WALLET_FIELDS[0], ds[0]) + FieldsWeight(WALLET_FIELDS[1..], ds[1..]);
  }

  lemma VectorWeighs(item: Shape, ds: seq<Data>)
    requires HasShape(Vector(item), Items(ds))
    ensures EachHasShape(item, ds) && Weight(Vector(item), Items(ds)) == 8 + ItemsWeight(item, ds)
  {
  }

  lemma ThreeFields(fields: seq<Shape>, ds: seq<Data>)
    requires |fields| == |ds| == 3 && HaveShapes(fields, ds) && fields[1] == fields[2] == Uint(1)
    ensures HasShape(fields[0], ds[0]) && FieldsWeight(fields, ds) == Weight(fields[0], ds[0]) + 2
  {
    var f1, d1 := fields[1..], ds[1..];
    var f2, d2 := f1[1..], d1[1..];
    assert f2[1..] == [] && d2[1..] == [];
    assert FieldsWeight(f2, d2) == 1 + FieldsWeight([], []);
    assert FieldsWeight(f1, d1) == 1 + FieldsWeight(f2, d2);
  }

  lemma {:induction false} FieldsBounded(fields: seq<Shape>, ds: seq<Data>, most: nat)
    requires HaveShapes(fields, ds) && |fields| == |ds| && forall i | 0 <= i < |fields| :: HasShape(fields[i], ds[i])
    requires forall i | 0 <= i < |fields| :: Weight(fields[i], ds[i]) <= most
    ensures FieldsWeight(fields, ds) <= most * |fields|
    decreases |fields|
  {
    hide Weight, HasShape;
    if fields != [] {
      FieldsBounded(fields[1..], ds[1..], most);
    }
  }

  lemma {:induction false} CoefficientsWeigh(ds: seq<Data>)
    requires EachHasShape(Uint(2), ds)
    ensures ItemsWeight(Uint(2), ds) == 2 * |ds|
    decreases |ds|
  {
    if ds != [] {
      CoefficientsWeigh(ds[1..]);
    }
  }

  lemma ConfigFieldBounded(c: BlockChainConfig, i: nat)
    requires ConfigFits(c) && i < 9
    ensures HasShape(CONFIG_FIELDS[i], ConfigData(c).items[i])
    ensures Weight(CONFIG_FIELDS[i], ConfigData(c).items[i]) <= 16 + 2 * |c.minFeeCoefficients|
  {
    hide Pow256;
    ConfigFieldShaped(c, i);
    if i == 5 {
      CoefficientsWeigh(CoefficientsData(c.minFeeCoefficients).items);
    } else if i == 7 {
      TwoFields(Uint(8), Uint(8), Number(c.checkpoint.minBlocks), Number(c.checkpoint.minAgeSeconds));
    }
  }

  /** An upper bound for the packed length of the genesis account's metadata. */
  lemma GenesisMetaLength(m: GenesisAccountMeta)
    requires GenesisMetaFits(m)
    ensures |GenesisMetaBytes(m)| <= |UserAccountBytes(m.genesis)| + 144 + 18 * |m.config.minFeeCoefficients|
  {
    hide UserAccountFits, ConfigFits, HasShape, Pack, BigEndian, Weight, UserAccountData, ConfigData;
    GenesisMetaShaped(m);
    UserAccountShaped(m.genesis);
    ConfigShaped(m.config);
    PackedLength(GENESIS_META, GenesisMetaData(m));
    PackedLength(USER_ACCOUNT, UserAccountData(m.genesis));
    TwoFields(CONFIG, USER_ACCOUNT, ConfigData(m.config), UserAccountData(m.genesis));
    ConfigBounded(m.config);
  }

  lemma ConfigBounded(c: BlockChainConfig)
    requires ConfigFits(c)
    ensures HasShape(CONFIG, ConfigData(c)) && Weight(CONFIG, ConfigData(c)) <= 144 + 18 * |c.minFeeCoefficients|
  {
    hide ConfigFits;
    ConfigShaped(c);
    var ds := ConfigData(c).items;
    EachField(CONFIG_FIELDS, ds);
    forall i | 0 <= i < 9
      ensures Weight(CONFIG_FIELDS[i], ds[i]) <= 16 + 2 * |c.minFeeCoefficients|
    {
      ConfigFieldBounded(c, i);
    }
    FieldsBounded(CONFIG_FIELDS, ds, 16 + 2 * |c.minFeeCoefficients|);
  }

  // ----- ranges -----

  lemma ReadFields(txType: nat, data: Bytes)
    requires Unpack(Struct(TxFields(txType)), data).Some?
    ensures var d := Unpack(Struct(TxFields(txType)), data).value.0;
      d.Items? && |d.items| == |TxFields(txType)| &&
      forall i | 0 <= i < |d.items| && TxFields(txType)[i] == Int64 :: d.items[i].Number? && InInt64(d.items[i].n)
  {
    hide Unpack;
    UnpackedShape(Struct(TxFields(txType)), data);
    EachField(TxFields(txType), Unpack(Struct(TxFields(txType)), data).value.0.items);
  }

  /** Windows read from records are 64-bit. */
  lemma BinaryWindows(digest: Bytes -> Bytes, verify: (nat, Bytes, Bytes, Bytes) -> bool, leader: (map<Id, u64>, nat, nat) -> Id)
    ensures WindowsAreInt64(Binary(digest, verify, leader))
  {
    hide Unpack;
    forall rec: Record | DecodeRecord(rec).Some?
      ensures InInt64(IdempotencyOf(DecodeRecord(rec).value).1.tsMin) && InInt64(IdempotencyOf(DecodeRecord(rec).value).1.tsMax)
    {
      ReadFields(rec.recordType, rec.data);
    }
  }

  lemma {:induction false} EntriesAreInt64(es: seq<(Id, int)>)
    requires forall i | 0 <= i < |es| :: InInt64(es[i].1)
    ensures forall id | id in FromEntries(es) :: InInt64(FromEntries(es)[id])
  {
    if es != [] {
      EntriesAreInt64(es[..|es| - 1]);
    }
  }

  /** A wallet of the right shape holds 64-bit balances. */
  lemma WalletIsInt64(d: Data)
    requires HasShape(WALLET, d)
    ensures forall id | id in WalletOf(d).balances :: InInt64(WalletOf(d).balances[id])
  {
    hide PairOf;
    EachField(WALLET_FIELDS, d.items);
    var pairs := d.items[0];
    assert HasShape(WALLET_FIELDS[0], pairs);
    EachItem(PAIR, pairs.items);
    forall i | 0 <= i < |pairs.items|
      ensures InInt64(PairOf(pairs.items[i]).1)
    {
      PairIsInt64(pairs.items[i]);
    }
    EntriesAreInt64(PairsOf(pairs));
  }

  lemma PairIsInt64(d: Data)
    requires HasShape(PAIR, d)
    ensures InInt64(PairOf(d).1)
  {
    var fields := [Uint(8), Int64];
    EachField(fields, d.items);
    assert HasShape(fields[1], d.items[1]);
  }

  lemma AccountIsInt64(d: Data)
    requires HasShape(USER_ACCOUNT, d)
    ensures var balances := UserAccountOf(d).wallet.balances; forall id | id in balances :: InInt64(balances[id])
  {
    hide WalletOf;
    EachField(USER_ACCOUNT_FIELDS, d.items);
    assert HasShape(USER_ACCOUNT_FIELDS[0], d.items[0]);
    WalletIsInt64(d.items[0]);
  }

  lemma VersionedShape(shape: Shape, bytes: Bytes)
    requires FromVersioned(shape, bytes).Some?
    ensures HasShape(shape, FromVersioned(shape, bytes).value)
  {
    hide Unpack, ReadUint;
    UnpackedShape(shape, ReadUint(bytes, 4).value.1);
  }

  /** Balances read from metadata are 64-bit. */
  lemma BinaryBalances(digest: Bytes -> Bytes, verify: (nat, Bytes, Bytes, Bytes) -> bool, leader: (map<Id, u64>, nat, nat) -> Id)
    ensures DecodesInt64(Binary(digest, verify, leader))
  {
    hide FromVersioned, UserAccountOf, HasShape;
    forall m: Bytes | UserAccountFromBytes(m).Some?
      ensures var balances := UserAccountFromBytes(m).value.wallet.balances; forall t | t in balances :: InInt64(balances[t])
    {
      VersionedShape(USER_ACCOUNT, m);
      AccountIsInt64(FromVersioned(USER_ACCOUNT, m).value);
    }
    forall m: Bytes | GenesisMetaFromBytes(m).Some?
      ensures var balances := GenesisMetaFromBytes(m).value.genesis.wallet.balances; forall t | t in balances :: InInt64(balances[t])
    {
      VersionedShape(GENESIS_META, m);
      GenesisIsInt64(FromVersioned(GENESIS_META, m).value);
    }
  }

  lemma GenesisIsInt64(d: Data)
    requires HasShape(GENESIS_META, d)
    ensures var balances := GenesisMetaOf(d).genesis.wallet.balances; forall id | id in balances :: InInt64(balances[id])
  {
    hide UserAccountOf, ConfigOf;
    EachField(GENESIS_META_FIELDS, d.items);
    assert HasShape(GENESIS_META_FIELDS[1], d.items[1]);
    AccountIsInt64(d.items[1]);
  }
}
