/** The bytes themselves: how numbers, strings and lists are written, and the order in which blocks, transactions and accounts write their
    fields. */
module WireFormat {
  import opened Numbers
  import opened Outcomes
  import opened Words
  import opened ChainTypes
  import opened Archive
  import opened ChainCodec
  import opened AccountCodec
  import FileFormat
  import MetaCodec
  import Json

  // ----- numbers, strings and lists -----

  /** A number in so many bytes, the most significant first: byte `i` holds the digit to the base 256 at that place. */
  ghost predicate IsWord(bytes: Bytes, x: nat, width: nat) {
    |bytes| == width && forall i | 0 <= i < width :: bytes[i] == (x / Pow256(width - 1 - i)) % 256
  }

  lemma {:induction false} WordDigits(x: nat, width: nat)
    ensures IsWord(BigEndian(x, width), x, width)
    decreases width
  {
    if width > 0 {
      WordDigits(x / 256, width - 1);
      var bytes := BigEndian(x / 256, width - 1);
      forall i | 0 <= i < width
        ensures BigEndian(x, width)[i] == (x / Pow256(width - 1 - i)) % 256
      {
        if i < width - 1 {
          assert bytes[i] == ((x / 256) / Pow256(width - 2 - i)) % 256;
          DividedTwice(x, 256, Pow256(width - 2 - i));
        }
      }
    }
  }

  lemma {:induction false} HostDigits(x: nat, width: nat, i: nat)
    requires i < width
    ensures LittleEndian(x, width)[i] == (x / Pow256(i)) % 256
    decreases width
  {
    if i > 0 {
      HostDigits(x / 256, width - 1, i - 1);
      DividedTwice(x, 256, Pow256(i - 1));
    }
  }

  lemma DividedTwice(x: nat, a: nat, b: nat)
    requires a > 0 && b > 0
    ensures a * b > 0 && (x / a) / b == x / (a * b)
  {
    var q := x / a;
    var r := q / b;
    QuotientBounds(x, a);
    QuotientBounds(q, b);
    Multiplied(r * b, q, a);
    Multiplied(q + 1, (r + 1) * b, a);
    Regrouped(r, b, a);
    Regrouped(r + 1, b, a);
    Quotient(x, a * b, r);
  }

  lemma QuotientBounds(x: nat, d: nat)
    requires d > 0
    ensures (x / d) * d <= x < (x / d + 1) * d
  {
  }

  lemma Regrouped(r: nat, b: nat, a: nat)
    requires a > 0 && b > 0
    ensures r * b * a == r * (a * b) && a * b > 0
  {
  }

  lemma Multiplied(x: nat, y: nat, a: nat)
    requires x <= y
    ensures x * a <= y * a
  {
  }

  lemma Quotient(x: nat, d: nat, q: nat)
    requires d > 0 && q * d <= x < (q + 1) * d
    ensures x / d == q
  {
    var r := x / d;
    QuotientBounds(x, d);
    if r < q {
      Multiplied(r + 1, q, d);
    } else if q < r {
      Multiplied(q + 1, r, d);
    }
  }

  function Joined(parts: seq<Bytes>): Bytes
    decreases |parts|
  {
    if parts == [] then [] else parts[0] + Joined(parts[1..])
  }

  function Word(x: nat, width: nat): Bytes {
    BigEndian(x, width)
  }

  /** Two's complement in eight bytes. */
  function SignedWord(x: int): Bytes {
    Word(x % 0x1_0000_0000_0000_0000, 8)
  }

  /** A string behind its length in eight bytes. */
  function String(s: Bytes): Bytes {
    Word(|s|, 8) + s
  }

  /** A list behind its length in eight bytes. */
  function List(items: seq<Bytes>): Bytes {
    Word(|items|, 8) + Joined(items)
  }

  function Strings(ss: seq<Bytes>): Bytes {
    List(seq(|ss|, i requires 0 <= i < |ss| => String(ss[i])))
  }

  // ----- shapes -----

  lemma {:induction false} FieldsJoined(fields: seq<Shape>, ds: seq<Data>, parts: seq<Bytes>)
    requires HaveShapes(fields, ds) && |parts| == |fields| == |ds|
    requires forall i | 0 <= i < |fields| :: HasShape(fields[i], ds[i]) && Pack(fields[i], ds[i]) == parts[i]
    ensures PackFields(fields, ds) == Joined(parts)
    decreases |fields|
  {
    hide Pack, HasShape;
    if fields != [] {
      var later, rest, behind := fields[1..], ds[1..], parts[1..];
      assert forall i | 0 <= i < |later| :: later[i] == fields[i + 1] && rest[i] == ds[i + 1] && behind[i] == parts[i + 1];
      FieldsJoined(later, rest, behind);
    }
  }

  lemma {:induction false} ItemsJoined(item: Shape, ds: seq<Data>, parts: seq<Bytes>)
    requires EachHasShape(item, ds) && |parts| == |ds|
    requires forall i | 0 <= i < |ds| :: HasShape(item, ds[i]) && Pack(item, ds[i]) == parts[i]
    ensures PackItems(item, ds) == Joined(parts)
    decreases |ds|
  {
    hide Pack, HasShape;
    if ds != [] {
      var rest, behind := ds[1..], parts[1..];
      assert forall i | 0 <= i < |rest| :: rest[i] == ds[i + 1] && behind[i] == parts[i + 1];
      ItemsJoined(item, rest, behind);
    }
  }

  lemma SignedIs(n: int)
    requires InInt64(n)
    ensures BigEndian(ToUint64(n), 8) == SignedWord(n)
  {
    assert ToUint64(n) == n % 0x1_0000_0000_0000_0000;
  }

  lemma StringsPacked(ss: seq<Bytes>)
    requires TextsFit(ss)
    ensures HasShape(Vector(Text), TextsData(ss)) && Pack(Vector(Text), TextsData(ss)) == Strings(ss)
  {
    TextsShaped(ss);
    var ds := TextsData(ss).items;
    EachItem(Text, ds);
    ItemsJoined(Text, ds, seq(|ss|, i requires 0 <= i < |ss| => String(ss[i])));
  }

  // ----- blocks -----

  /** A record: its type in two bytes, its payload, its signatures. */
  function RecordBytes(r: Record): Bytes {
    Joined([Word(r.recordType, 2), String(r.data), Strings(r.signatures)])
  }

  function EachRecord(rs: seq<Record>): (parts: seq<Bytes>)
    ensures |parts| == |rs| && forall i | 0 <= i < |rs| :: parts[i] == RecordBytes(rs[i])
  {
    seq(|rs|, i requires 0 <= i < |rs| => RecordBytes(rs[i]))
  }

  lemma RecordPacked(r: Record)
    requires RecordFits(r)
    ensures HasShape(RECORD, RecordData(r)) && Pack(RECORD, RecordData(r)) == RecordBytes(r)
  {
    hide Pow256, BigEndian, TextsData, Strings;
    RecordShaped(r);
    StringsPacked(r.signatures);
    var fields, ds := [Uint(2), Text, Vector(Text)], RecordData(r).items;
    EachField(fields, ds);
    assert HasShape(fields[0], ds[0]) && HasShape(fields[1], ds[1]) && HasShape(fields[2], ds[2]);
    FieldsJoined(fields, ds, [Word(r.recordType, 2), String(r.data), Strings(r.signatures)]);
  }

  lemma RecordsPacked(rs: seq<Record>)
    requires |rs| < TWO_64 && forall i | 0 <= i < |rs| :: RecordFits(rs[i])
    ensures HasShape(Vector(RECORD), RecordsData(rs))
    ensures Pack(Vector(RECORD), RecordsData(rs)) == List(EachRecord(rs))
  {
    hide RecordFits, RecordData, RecordBytes, BigEndian, EachRecord;
    RecordsShaped(rs);
    var ds := RecordsData(rs).items;
    EachItem(RECORD, ds);
    forall i | 0 <= i < |rs|
      ensures HasShape(RECORD, ds[i]) && Pack(RECORD, ds[i]) == RecordBytes(rs[i])
    {
      RecordPacked(rs[i]);
    }
    ItemsJoined(RECORD, ds, EachRecord(rs));
  }

  /** The fields of a block, in order. */
  function BlockParts(b: Block): seq<Bytes> {
    [Word(b.index, 8), SignedWord(b.timestamp), List(EachRecord(b.records)),
     String(b.previousHash), Word(b.nonce, 8), Word(b.slot, 8), Word(b.slotLeader, 8), Word(b.txIndex, 8)]
  }

  lemma BlockFieldPacked(b: Block, i: nat)
    requires BlockFits(b) && i < 8
    ensures HasShape(BLOCK_FIELDS[i], BlockData(b).items[i]) && Pack(BLOCK_FIELDS[i], BlockData(b).items[i]) == BlockParts(b)[i]
  {
    hide Pow256, BigEndian, RecordsData, List, RecordFits, RecordBytes, SignedWord, EachRecord;
    BlockFieldsShaped(b, i);
    if i == 1 {
      TimeFits(b);
      SignedIs(b.timestamp);
    } else if i == 2 {
      RecordsOfFit(b);
      RecordsPacked(b.records);
    }
  }

  lemma TimeFits(b: Block)
    requires BlockFits(b)
    ensures InInt64(b.timestamp)
  {
    hide RecordFits;
  }

  lemma RecordsOfFit(b: Block)
    requires BlockFits(b)
    ensures |b.records| < TWO_64 && forall i | 0 <= i < |b.records| :: RecordFits(b.records[i])
  {
    hide RecordFits;
  }

  /** A block, as it is stored and hashed: the version 1 in two bytes, and its fields. */
  lemma BlockLayout(b: Block)
    requires BlockFits(b)
    ensures BlockBytes(b) == Word(1, 2) + Joined(BlockParts(b))
  {
    hide Pow256, BigEndian, BlockData, BlockParts, HasShape, Pack;
    BlockCounted(b);
    forall i | 0 <= i < 8
      ensures HasShape(BLOCK_FIELDS[i], BlockData(b).items[i]) && Pack(BLOCK_FIELDS[i], BlockData(b).items[i]) == BlockParts(b)[i]
    {
      BlockFieldPacked(b, i);
    }
    BlockStruct(b);
    FieldsJoined(BLOCK_FIELDS, BlockData(b).items, BlockParts(b));
  }

  lemma BlockCounted(b: Block)
    ensures BlockData(b).Items? && |BLOCK_FIELDS| == |BlockData(b).items| == |BlockParts(b)| == 8
  {
    hide BigEndian;
  }

  lemma BlockStruct(b: Block)
    requires BlockFits(b)
    ensures HaveShapes(BLOCK_FIELDS, BlockData(b).items) && BlockBytes(b) == BigEndian(1, 2) + PackFields(BLOCK_FIELDS, BlockData(b).items)
  {
    hide BlockData, BigEndian;
    BlockShaped(b);
  }

  // ----- transactions -----

  function WindowBytes(w: Window): seq<Bytes> {
    [Word(w.idempotentId, 8), SignedWord(w.tsMin), SignedWord(w.tsMax)]
  }

  /** The fields of a transaction, in the order of its record's payload. */
  function TxParts(tx: TypedTx): seq<Bytes> {
    match tx
    case TxDefault(token, from, to, amount, fee, meta, w) =>
      [Word(token, 8), Word(from, 8), Word(to, 8), Word(amount, 8), Word(fee, 8), String(meta)] + WindowBytes(w)
    case TxGenesis(fee, meta) => [Word(fee, 8), String(meta)]
    case TxNewUser(from, to, amount, fee, meta, w) =>
      [Word(from, 8), Word(to, 8), Word(amount, 8), Word(fee, 8), String(meta)] + WindowBytes(w)
    case TxConfig(fee, meta, w) => [Word(fee, 8), String(meta)] + WindowBytes(w)
    case TxUserUpdate(id, fee, meta, w) => [Word(id, 8), Word(fee, 8), String(meta)] + WindowBytes(w)
    case TxRenewal(id, fee, meta) => [Word(id, 8), Word(fee, 8), String(meta)]
    case TxEndUser(id, fee, meta) => [Word(id, 8), Word(fee, 8), String(meta)]
  }

  lemma TxFieldPacked(tx: TypedTx, i: nat)
    requires TxFits(tx) && i < |TxData(tx)|
    ensures |TxFields(TypeOf(tx))| == |TxData(tx)| == |TxParts(tx)|
    ensures HasShape(TxFields(TypeOf(tx))[i], TxData(tx)[i]) && Pack(TxFields(TypeOf(tx))[i], TxData(tx)[i]) == TxParts(tx)[i]
  {
    hide Pow256, BigEndian, SignedWord;
    Widths();
    forall n | InInt64(n)
      ensures BigEndian(ToUint64(n), 8) == SignedWord(n)
    {
      SignedIs(n);
    }
  }

  /** The payload of a record, and the type that goes with it. */
  lemma TxLayout(tx: TypedTx)
    requires TxFits(tx)
    ensures TxBytes(tx) == Joined(TxParts(tx))
    ensures TypeOf(tx) == if tx.TxDefault? then 0 else if tx.TxGenesis? then 1 else if tx.TxNewUser? then 2 else if tx.TxConfig? then 3
      else if tx.TxUserUpdate? then 4 else if tx.TxRenewal? then 5 else 6
  {
    hide Pack, HasShape, TxFields, TxData, TxParts, TxFits;
    TxShaped(tx);
    TxCounted(tx);
    forall i | 0 <= i < |TxData(tx)|
      ensures HasShape(TxFields(TypeOf(tx))[i], TxData(tx)[i]) && Pack(TxFields(TypeOf(tx))[i], TxData(tx)[i]) == TxParts(tx)[i]
    {
      TxFieldPacked(tx, i);
    }
    TxStruct(tx);
    FieldsJoined(TxFields(TypeOf(tx)), TxData(tx), TxParts(tx));
  }

  lemma TxCounted(tx: TypedTx)
    ensures |TxFields(TypeOf(tx))| == |TxData(tx)| == |TxParts(tx)|
  {
    hide BigEndian;
  }

  lemma TxStruct(tx: TypedTx)
    requires TxFits(tx)
    ensures HaveShapes(TxFields(TypeOf(tx)), TxData(tx)) && TxBytes(tx) == PackFields(TxFields(TypeOf(tx)), TxData(tx))
  {
    hide TxFields, TxData;
    TxShaped(tx);
  }

  // ----- accounts -----

  /** The balances of a wallet, token by token in increasing order. */
  function EachBalance(es: seq<(Id, int)>): (parts: seq<Bytes>)
    ensures |parts| == |es| && forall i | 0 <= i < |es| :: parts[i] == Joined([Word(es[i].0, 8), SignedWord(es[i].1)])
  {
    seq(|es|, i requires 0 <= i < |es| => Joined([Word(es[i].0, 8), SignedWord(es[i].1)]))
  }

  lemma BalancePacked(e: (Id, int))
    requires e.0 < TWO_64 && InInt64(e.1)
    ensures HasShape(PAIR, PairData(e)) && Pack(PAIR, PairData(e)) == Joined([Word(e.0, 8), SignedWord(e.1)])
  {
    hide Pow256, BigEndian, SignedWord;
    PairShaped(e);
    SignedIs(e.1);
    var fields, ds := [Uint(8), Int64], PairData(e).items;
    EachField(fields, ds);
    assert HasShape(fields[0], ds[0]) && HasShape(fields[1], ds[1]);
    FieldsJoined(fields, ds, [Word(e.0, 8), SignedWord(e.1)]);
  }

  lemma BalancesPacked(b: Balances)
    requires BalancesFit(b)
    ensures HasShape(Vector(PAIR), PairsData(Entries(b))) && Pack(Vector(PAIR), PairsData(Entries(b))) == List(EachBalance(Entries(b)))
  {
    hide PairData, BigEndian, EachBalance, SignedWord;
    BalancesShaped(b);
    EntriesFit(b);
    var es := Entries(b);
    var ds := PairsData(es).items;
    EachItem(PAIR, ds);
    forall i | 0 <= i < |es|
      ensures HasShape(PAIR, ds[i]) && Pack(PAIR, ds[i]) == Joined([Word(es[i].0, 8), SignedWord(es[i].1)])
    {
      BalancePacked(es[i]);
    }
    ItemsJoined(PAIR, ds, EachBalance(es));
  }

  function WalletParts(w: Wallet): seq<Bytes> {
    [List(EachBalance(Entries(w.balances))), Strings(w.publicKeys), Word(w.minSignatures, 1), Word(w.keyType, 1)]
  }

  lemma WalletFieldPacked(w: Wallet, i: nat)
    requires WalletFits(w) && i < 4
    ensures |WalletData(w).items| == 4
    ensures HasShape(WALLET_FIELDS[i], WalletData(w).items[i]) && Pack(WALLET_FIELDS[i], WalletData(w).items[i]) == WalletParts(w)[i]
  {
    hide BigEndian, PairsData, TextsData, EachBalance, Entries, List, Strings;
    Widths();
    if i == 0 {
      BalancesPacked(w.balances);
    } else if i == 1 {
      StringsPacked(w.publicKeys);
    }
  }

  lemma WalletPacked(w: Wallet)
    requires WalletFits(w)
    ensures HasShape(WALLET, WalletData(w)) && Pack(WALLET, WalletData(w)) == Joined(WalletParts(w))
  {
    hide WalletFits, WalletParts;
    WalletShaped(w);
    forall i | 0 <= i < 4
      ensures HasShape(WALLET_FIELDS[i], WalletData(w).items[i]) && |WalletParts(w)| == 4
      ensures Pack(WALLET_FIELDS[i], WalletData(w).items[i]) == WalletParts(w)[i]
    {
      WalletFieldPacked(w, i);
      WalletCounted(w);
    }
    EachField(WALLET_FIELDS, WalletData(w).items);
    WalletCounted(w);
    FieldsJoined(WALLET_FIELDS, WalletData(w).items, WalletParts(w));
  }

  lemma WalletCounted(w: Wallet)
    ensures |WalletParts(w)| == 4
  {
  }

  function UserAccountParts(a: UserAccount): seq<Bytes> {
    [Joined(WalletParts(a.wallet)), String(a.meta)]
  }

  lemma UserAccountPacked(a: UserAccount)
    requires UserAccountFits(a)
    ensures HasShape(USER_ACCOUNT, UserAccountData(a)) && Pack(USER_ACCOUNT, UserAccountData(a)) == Joined(UserAccountParts(a))
  {
    hide WalletFits, WalletParts, WalletData, BigEndian;
    UserAccountShaped(a);
    WalletPacked(a.wallet);
    var ds := UserAccountData(a).items;
    EachField(USER_ACCOUNT_FIELDS, ds);
    assert HasShape(USER_ACCOUNT_FIELDS[0], ds[0]) && HasShape(USER_ACCOUNT_FIELDS[1], ds[1]);
    FieldsJoined(USER_ACCOUNT_FIELDS, ds, UserAccountParts(a));
  }

  /** The metadata of an account: the version 1 in four bytes; balances, keys, how many must sign and the kind of keys; what the client adds. */
  lemma UserAccountLayout(a: UserAccount)
    requires UserAccountFits(a)
    ensures UserAccountBytes(a) == Word(1, 4) + Joined(UserAccountParts(a))
  {
    hide Pack, HasShape, UserAccountData, UserAccountParts, BigEndian, UserAccountFits;
    UserAccountPacked(a);
  }

  function EachCoefficient(cs: seq<nat>): (parts: seq<Bytes>)
    ensures |parts| == |cs| && forall i | 0 <= i < |cs| :: parts[i] == Word(cs[i], 2)
  {
    seq(|cs|, i requires 0 <= i < |cs| => Word(cs[i], 2))
  }

  /** The configuration: genesis time, slot duration, slots of an epoch, the limits on metadata and transactions, the fee coefficients in two
      bytes each, what metadata is free in four bytes, blocks and seconds of a checkpoint, the longest window of a record. */
  function ConfigParts(c: BlockChainConfig): seq<Bytes> {
    [SignedWord(c.genesisTime), Word(c.slotDuration, 8), Word(c.slotsPerEpoch, 8), Word(c.maxCustomMetaSize, 8),
     Word(c.maxTransactionsPerBlock, 8), List(EachCoefficient(c.minFeeCoefficients)), Word(c.freeCustomMetaSize, 4),
     Joined([Word(c.checkpoint.minBlocks, 8), Word(c.checkpoint.minAgeSeconds, 8)]), Word(c.maxValidationTimespanSeconds, 8)]
  }

  lemma CoefficientsPacked(cs: seq<nat>)
    requires |cs| < TWO_64 && forall i | 0 <= i < |cs| :: cs[i] < 0x1_0000
    ensures HasShape(Vector(Uint(2)), CoefficientsData(cs)) && Pack(Vector(Uint(2)), CoefficientsData(cs)) == List(EachCoefficient(cs))
  {
    hide BigEndian, EachCoefficient;
    CoefficientsShaped(cs);
    var ds := CoefficientsData(cs).items;
    EachItem(Uint(2), ds);
    ItemsJoined(Uint(2), ds, EachCoefficient(cs));
  }

  lemma CheckpointPacked(c: CheckpointConfig)
    ensures HasShape(CHECKPOINT, CheckpointData(c))
    ensures Pack(CHECKPOINT, CheckpointData(c)) == Joined([Word(c.minBlocks, 8), Word(c.minAgeSeconds, 8)])
  {
    hide Pow256, BigEndian;
    CheckpointShaped(c);
    var fields, ds := [Uint(8), Uint(8)], CheckpointData(c).items;
    EachField(fields, ds);
    assert HasShape(fields[0], ds[0]) && HasShape(fields[1], ds[1]);
    FieldsJoined(fields, ds, [Word(c.minBlocks, 8), Word(c.minAgeSeconds, 8)]);
  }

  lemma ConfigFieldPacked(c: BlockChainConfig, i: nat)
    requires ConfigFits(c) && i < 9
    ensures HasShape(CONFIG_FIELDS[i], ConfigData(c).items[i]) && Pack(CONFIG_FIELDS[i], ConfigData(c).items[i]) == ConfigParts(c)[i]
  {
    hide BigEndian, CoefficientsData, CheckpointData, EachCoefficient, List, Pow256, SignedWord;
    ConfigFieldShaped(c, i);
    if i == 0 {
      SignedIs(c.genesisTime);
    } else if i == 5 {
      CoefficientsPacked(c.minFeeCoefficients);
    } else if i == 7 {
      CheckpointPacked(c.checkpoint);
    }
  }

  lemma ConfigPacked(c: BlockChainConfig)
    requires ConfigFits(c)
    ensures HasShape(CONFIG, ConfigData(c)) && Pack(CONFIG, ConfigData(c)) == Joined(ConfigParts(c))
  {
    hide ConfigFits, ConfigParts, Pow256;
    ConfigCounted(c);
    forall i | 0 <= i < 9
      ensures HasShape(CONFIG_FIELDS[i], ConfigData(c).items[i]) && Pack(CONFIG_FIELDS[i], ConfigData(c).items[i]) == ConfigParts(c)[i]
    {
      ConfigFieldPacked(c, i);
    }
    EachField(CONFIG_FIELDS, ConfigData(c).items);
    FieldsJoined(CONFIG_FIELDS, ConfigData(c).items, ConfigParts(c));
  }

  lemma ConfigCounted(c: BlockChainConfig)
    ensures |ConfigParts(c)| == 9
  {
  }

  /** The metadata of the genesis account: the version 1 in four bytes, the configuration, the account. */
  lemma GenesisMetaLayout(m: GenesisAccountMeta)
    requires GenesisMetaFits(m)
    ensures GenesisMetaBytes(m) == Word(1, 4) + Joined([Joined(ConfigParts(m.config)), Joined(UserAccountParts(m.genesis))])
  {
    hide ConfigFits, UserAccountFits, ConfigParts, UserAccountParts, ConfigData, UserAccountData, BigEndian;
    GenesisMetaShaped(m);
    ConfigPacked(m.config);
    UserAccountPacked(m.genesis);
    var ds := GenesisMetaData(m).items;
    EachField(GENESIS_META_FIELDS, ds);
    assert HasShape(GENESIS_META_FIELDS[0], ds[0]) && HasShape(GENESIS_META_FIELDS[1], ds[1]);
    FieldsJoined(GENESIS_META_FIELDS, ds, [Joined(ConfigParts(m.config)), Joined(UserAccountParts(m.genesis))]);
  }

  // ----- what is read -----

  /** A string is read if and only if its length, of eight bytes, is there, is no more than 64 MiB, and so many bytes follow. */
  lemma StringReadIff(bytes: Bytes)
    ensures ReadString(bytes).Some? <==>
      |bytes| >= 8 && FromBigEndian(bytes[..8]) <= 64 * 1024 * 1024 && FromBigEndian(bytes[..8]) <= |bytes| - 8
    ensures ReadString(bytes).Some? ==>
      var n := FromBigEndian(bytes[..8]); ReadString(bytes).value == (bytes[8..8 + n], bytes[8 + n..])
  {
    if |bytes| >= 8 && FromBigEndian(bytes[..8]) <= |bytes| - 8 {
      var n := FromBigEndian(bytes[..8]);
      assert bytes[8..][..n] == bytes[8..8 + n] && bytes[8..][n..] == bytes[8 + n..];
    }
  }

  /** Blocks of version 0 and 1 are read, accounts and genesis metadata of version 1 only; what follows the value is ignored. */
  lemma VersionsRead(bytes: Bytes)
    ensures BlockFromBytes(bytes).Some? <==> |bytes| >= 2 && FromBigEndian(bytes[..2]) <= 1 && Unpack(BLOCK, bytes[2..]).Some?
    ensures UserAccountFromBytes(bytes).Some? <==> |bytes| >= 4 && FromBigEndian(bytes[..4]) == 1 && Unpack(USER_ACCOUNT, bytes[4..]).Some?
    ensures GenesisMetaFromBytes(bytes).Some? <==> |bytes| >= 4 && FromBigEndian(bytes[..4]) == 1 && Unpack(GENESIS_META, bytes[4..]).Some?
  {
    hide Unpack, FromBigEndian;
  }

  /** Records of the types 0 to 6 are read, by the fields of their type. */
  lemma TypesRead(r: Record)
    ensures DecodeRecord(r).Some? <==> r.recordType <= 6 && Unpack(Struct(TxFields(r.recordType)), r.data).Some?
  {
    hide Unpack;
  }

  // ----- block files -----

  /** A block file begins with its magic number, its version and its count of blocks, and holds each block behind its size, all in the byte
      order of the host. */
  lemma FileLayout(count: nat, block: Bytes)
    ensures FileFormat.Header(count) == LittleEndian(0x504C_4642, 4) + LittleEndian(1, 2) + LittleEndian(0, 2) + LittleEndian(count, 8)
                                        + LittleEndian(24, 8)
    ensures FileFormat.Frame(block) == LittleEndian(|block|, 8) + block
  {
  }

  /** Small numbers and a short string. */
  lemma SmallWords()
    ensures BigEndian(0x0102, 4) == [0, 0, 1, 2] && LittleEndian(0x0102, 4) == [2, 1, 0, 0]
    ensures String([65, 66]) == [0, 0, 0, 0, 0, 0, 0, 2, 65, 66]
  {
    Eight(2);
  }

  // ----- metadata -----

  /** Tagged metadata: a count, then key by key the key, the tag of the value in two bytes and its payload as a string. The tags are 1 to 7 for
      signed and unsigned numbers, truth values, doubles, strings, maps and lists. */
  lemma MetaLayout(key: Bytes, v: MetaCodec.Value, rest: seq<MetaCodec.Entry>)
    ensures MetaCodec.PackMeta(MetaCodec.Meta([MetaCodec.Entry(key, v)] + rest))
         == Word(|rest| + 1, 8) + (String(key) + (Word(MetaTag(v), 2) + String(MetaCodec.Payload(v)) + MetaCodec.PackEntries(rest)))
    ensures MetaCodec.Payload(MetaCodec.Array([v])) == Word(1, 8) + (Word(MetaTag(v), 2) + String(MetaCodec.Payload(v)))
  {
    hide BigEndian, MetaCodec.Payload;
    var es := [MetaCodec.Entry(key, v)] + rest;
    assert es[1..] == rest && [v][1..] == [];
    assert MetaCodec.PackWire(v) == Word(MetaTag(v), 2) + String(MetaCodec.Payload(v));
    assert MetaCodec.PackWires([v]) == MetaCodec.PackWire(v);
    ArrayPayload([v]);
  }

  lemma ArrayPayload(vs: seq<MetaCodec.Value>)
    ensures MetaCodec.Payload(MetaCodec.Array(vs)) == BigEndian(|vs|, 8) + MetaCodec.PackWires(vs)
  {
    hide BigEndian;
  }

  function MetaTag(v: MetaCodec.Value): nat {
    if v.I64? then 1 else if v.U64? then 2 else if v.Bool? then 3 else if v.Double? then 4 else if v.Text? then 5
    else if v.Array? then 7 else 6
  }

  /** The compact text of a map and of a list of two: {key:value,key:value} and [value,value]. */
  lemma TextLayout(doubles: Json.Doubles, depth: nat, k: Bytes, v: MetaCodec.Value, l: Bytes, w: MetaCodec.Value)
    ensures Json.PrintMeta(doubles, Json.Compact, depth, MetaCodec.Meta([MetaCodec.Entry(k, v), MetaCodec.Entry(l, w)]))
         == [123] + (Json.PrintString(k) + ([58] + (Json.PrintValue(doubles, Json.Compact, depth + 1, v) + ([44] +
            (Json.PrintString(l) + ([58] + (Json.PrintValue(doubles, Json.Compact, depth + 1, w) + [125])))))))
    ensures Json.PrintElements(doubles, Json.Compact, depth, [v, w])
         == Json.PrintValue(doubles, Json.Compact, depth + 1, v) + ([44] + (Json.PrintValue(doubles, Json.Compact, depth + 1, w) + [93]))
  {
    hide Json.PrintString, Json.PrintValue;
    var es := [MetaCodec.Entry(k, v), MetaCodec.Entry(l, w)];
    assert es[1..] == [MetaCodec.Entry(l, w)] && [v, w][1..] == [w];
    var empty: Bytes := [];
    assert empty + [125] == [125] && empty + [93] == [93];
    LastEntry(doubles, depth, l, w);
    LastElement(doubles, depth, w);
    forall more: Bytes
      ensures empty + more == more
    {
    }
  }

  lemma LastEntry(doubles: Json.Doubles, depth: nat, l: Bytes, w: MetaCodec.Value)
    ensures Json.PrintEntries(doubles, Json.Compact, depth, [MetaCodec.Entry(l, w)])
         == Json.PrintString(l) + ([58] + (Json.PrintValue(doubles, Json.Compact, depth + 1, w) + [125]))
  {
    hide Json.PrintString, Json.PrintValue;
    var empty: Bytes := [];
    assert empty + [125] == [125];
  }

  lemma LastElement(doubles: Json.Doubles, depth: nat, w: MetaCodec.Value)
    ensures Json.PrintElements(doubles, Json.Compact, depth, [w]) == Json.PrintValue(doubles, Json.Compact, depth + 1, w) + [93]
  {
    hide Json.PrintValue;
    var empty: Bytes := [];
    assert empty + [93] == [93];
  }

  /** Numbers are decimal, and what must be escaped is. */
  lemma TextSamples()
    ensures Json.PrintInt(-120) == [45, 49, 50, 48] && Json.PrintInt(0) == [48]
    ensures Json.PrintString([34, 10, 65, 1]) == [34, 92, 34, 92, 110, 65, 92, 117, 48, 48, 48, 49, 34]
  {
    assert Json.Decimal(12) == [49, 50];
    var text: Bytes := [34, 10, 65, 1];
    assert text[1..][1..] == text[2..] && text[2..][1..] == text[3..] && text[3..][1..] == [];
    assert Json.Escaped(text[3..]) == [92, 117, 48, 48, 48, 49];
    assert Json.Escaped(text[2..]) == [65, 92, 117, 48, 48, 48, 49];
    assert Json.Escaped(text[1..]) == [92, 110, 65, 92, 117, 48, 48, 48, 49];
  }

  lemma Eight(x: nat)
    requires x < 256
    ensures BigEndian(x, 8) == [0, 0, 0, 0, 0, 0, 0, x]
  {
    assert BigEndian(0, 1) == [0] && BigEndian(0, 2) == [0, 0] && BigEndian(0, 3) == [0, 0, 0];
    assert BigEndian(0, 4) == [0, 0, 0, 0] && BigEndian(0, 5) == [0, 0, 0, 0, 0];
    assert BigEndian(0, 6) == [0, 0, 0, 0, 0, 0] && BigEndian(0, 7) == [0, 0, 0, 0, 0, 0, 0];
  }
}
