/** The stored forms of the chain's structures: for each one the shape its fields are packed in, the conversion to and
    from archive data, and the round trip. */
module ChainCodec {
  import opened Numbers
  import opened Outcomes
  import opened Sequences
  import opened Words
  import opened Archive
  import opened ChainTypes

  // ----- structures field by field -----

  lemma {:induction false} EachField(fields: seq<Shape>, ds: seq<Data>)
    ensures HaveShapes(fields, ds) <==> |fields| == |ds| && forall i | 0 <= i < |fields| :: HasShape(fields[i], ds[i])
    ensures HaveShapes(fields, ds) ==>
      (AllSmall(fields, ds) <==> forall i | 0 <= i < |fields| :: Small(fields[i], ds[i]))
  {
    hide HasShape, Small;
    if fields != [] && ds != [] {
      EachField(fields[1..], ds[1..]);
      var later, rest := fields[1..], ds[1..];
      if |fields| == |ds| && forall i | 0 <= i < |fields| :: HasShape(fields[i], ds[i]) {
        forall i | 0 <= i < |later| ensures HasShape(later[i], rest[i]) {
          assert HasShape(fields[i + 1], ds[i + 1]);
        }
      }
      if HaveShapes(fields, ds) {
        forall i | 0 <= i < |fields| ensures HasShape(fields[i], ds[i]) {
          assert i > 0 ==> HasShape(later[i - 1], rest[i - 1]);
        }
        if forall i | 0 <= i < |fields| :: Small(fields[i], ds[i]) {
          forall i | 0 <= i < |later| ensures Small(later[i], rest[i]) {
            assert Small(fields[i + 1], ds[i + 1]);
          }
        }
        if AllSmall(fields, ds) {
          forall i | 0 <= i < |fields| ensures Small(fields[i], ds[i]) {
            assert i > 0 ==> Small(later[i - 1], rest[i - 1]);
          }
        }
      }
    }
  }

  lemma {:induction false} EachItem(item: Shape, ds: seq<Data>)
    ensures EachHasShape(item, ds) <==> forall i | 0 <= i < |ds| :: HasShape(item, ds[i])
    ensures EachHasShape(item, ds) ==> (EachSmall(item, ds) <==> forall i | 0 <= i < |ds| :: Small(item, ds[i]))
  {
    hide HasShape, Small;
    if ds != [] {
      EachItem(item, ds[1..]);
      var rest := ds[1..];
      if forall i | 0 <= i < |ds| :: HasShape(item, ds[i]) {
        forall i | 0 <= i < |rest| ensures HasShape(item, rest[i]) {
          assert HasShape(item, ds[i + 1]);
        }
      }
      if EachHasShape(item, ds) {
        forall i | 0 <= i < |ds| ensures HasShape(item, ds[i]) {
          assert i > 0 ==> HasShape(item, rest[i - 1]);
        }
        if forall i | 0 <= i < |ds| :: Small(item, ds[i]) {
          forall i | 0 <= i < |rest| ensures Small(item, rest[i]) {
            assert Small(item, ds[i + 1]);
          }
        }
        if EachSmall(item, ds) {
          forall i | 0 <= i < |ds| ensures Small(item, ds[i]) {
            assert i > 0 ==> Small(item, rest[i - 1]);
          }
        }
      }
    }
  }

  function NatAt(d: Data, i: nat): nat {
    if d.Items? && i < |d.items| && d.items[i].Number? && d.items[i].n >= 0 then d.items[i].n else 0
  }

  function IntAt(d: Data, i: nat): int {
    if d.Items? && i < |d.items| && d.items[i].Number? then d.items[i].n else 0
  }

  function StrAt(d: Data, i: nat): Bytes {
    if d.Items? && i < |d.items| && d.items[i].Str? then d.items[i].s else []
  }

  function At(d: Data, i: nat): Data {
    if d.Items? && i < |d.items| then d.items[i] else Items([])
  }

  function ItemsOf(d: Data): seq<Data> {
    if d.Items? then d.items else []
  }

  function U64At(d: Data, i: nat): u64 {
    if NatAt(d, i) < TWO_64 then NatAt(d, i) else 0
  }

  function StrOf(d: Data): Bytes {
    if d.Str? then d.s else []
  }

  function TextsData(ss: seq<Bytes>): Data {
    Items(seq(|ss|, i requires 0 <= i < |ss| => Str(ss[i])))
  }

  function TextsOf(d: Data): seq<Bytes> {
    seq(|ItemsOf(d)|, i requires 0 <= i < |ItemsOf(d)| => StrOf(ItemsOf(d)[i]))
  }

  predicate TextsFit(ss: seq<Bytes>) {
    |ss| < TWO_64 && forall i | 0 <= i < |ss| :: |ss[i]| < TWO_64
  }

  predicate TextsSmall(ss: seq<Bytes>) {
    forall i | 0 <= i < |ss| :: |ss[i]| <= MAX_STRING_SIZE
  }

  lemma TextsShaped(ss: seq<Bytes>)
    requires TextsFit(ss)
    ensures HasShape(Vector(Text), TextsData(ss)) && (Small(Vector(Text), TextsData(ss)) <==> TextsSmall(ss))
    ensures TextsOf(TextsData(ss)) == ss
  {
    var ds := TextsData(ss).items;
    EachItem(Text, ds);
    assert forall i | 0 <= i < |ss| :: HasShape(Text, ds[i]) && (Small(Text, ds[i]) <==> |ss[i]| <= MAX_STRING_SIZE);
    assert HasShape(Vector(Text), TextsData(ss));
  }

  // ----- records and blocks -----

  const RECORD: Shape := Struct([Uint(2), Text, Vector(Text)])
  const BLOCK_FIELDS: seq<Shape> := [Uint(8), Int64, Vector(RECORD), Text, Uint(8), Uint(8), Uint(8), Uint(8)]
  const BLOCK: Shape := Struct(BLOCK_FIELDS)

  predicate RecordFits(r: Record) {
    r.recordType < 0x1_0000 && |r.data| < TWO_64 && TextsFit(r.signatures)
  }

  predicate RecordSmall(r: Record) {
    |r.data| <= MAX_STRING_SIZE && TextsSmall(r.signatures)
  }

  function RecordData(r: Record): Data {
    Items([Number(r.recordType), Str(r.data), TextsData(r.signatures)])
  }

  function RecordOf(d: Data): Record {
    Record(NatAt(d, 0), StrAt(d, 1), TextsOf(At(d, 2)))
  }

  lemma RecordShaped(r: Record)
    requires RecordFits(r)
    ensures HasShape(RECORD, RecordData(r)) && (Small(RECORD, RecordData(r)) <==> RecordSmall(r))
    ensures RecordOf(RecordData(r)) == r
  {
    hide Pow256, TextsData, TextsOf, TextsFit, TextsSmall;
    Widths();
    TextsShaped(r.signatures);
    var fields, ds := [Uint(2), Text, Vector(Text)], RecordData(r).items;
    EachField(fields, ds);
    assert HasShape(fields[0], ds[0]) && HasShape(fields[1], ds[1]) && HasShape(fields[2], ds[2]);
    assert HaveShapes(fields, ds);
    assert Small(fields[0], ds[0]) && (Small(fields[1], ds[1]) <==> |r.data| <= MAX_STRING_SIZE);
  }

  predicate BlockFits(b: Block) {
    && b.index < TWO_64 && InInt64(b.timestamp) && |b.records| < TWO_64 && |b.previousHash| < TWO_64
    && b.nonce < TWO_64 && b.slot < TWO_64 && b.slotLeader < TWO_64 && b.txIndex < TWO_64
    && forall i | 0 <= i < |b.records| :: RecordFits(b.records[i])
  }

  predicate BlockSmall(b: Block) {
    |b.previousHash| <= MAX_STRING_SIZE && forall i | 0 <= i < |b.records| :: RecordSmall(b.records[i])
  }

  function RecordsData(rs: seq<Record>): Data {
    Items(seq(|rs|, i requires 0 <= i < |rs| => RecordData(rs[i])))
  }

  function RecordsOf(d: Data): seq<Record> {
    seq(|ItemsOf(d)|, i requires 0 <= i < |ItemsOf(d)| => RecordOf(ItemsOf(d)[i]))
  }

  lemma RecordsShaped(rs: seq<Record>)
    requires |rs| < TWO_64 && forall i | 0 <= i < |rs| :: RecordFits(rs[i])
    ensures HasShape(Vector(RECORD), RecordsData(rs))
    ensures Small(Vector(RECORD), RecordsData(rs)) <==> forall i | 0 <= i < |rs| :: RecordSmall(rs[i])
    ensures RecordsOf(RecordsData(rs)) == rs
  {
    hide RecordFits, RecordSmall, RecordData, RecordOf;
    var ds := RecordsData(rs).items;
    EachItem(RECORD, ds);
    forall i | 0 <= i < |rs|
      ensures HasShape(RECORD, ds[i]) && (Small(RECORD, ds[i]) <==> RecordSmall(rs[i])) && RecordOf(ds[i]) == rs[i]
    {
      RecordShaped(rs[i]);
    }
    assert HasShape(Vector(RECORD), RecordsData(rs));
  }

  function BlockData(b: Block): Data {
    Items([Number(b.index), Number(b.timestamp), RecordsData(b.records), Str(b.previousHash), Number(b.nonce),
           Number(b.slot), Number(b.slotLeader), Number(b.txIndex)])
  }

  function BlockOf(d: Data): Block {
    Block(NatAt(d, 0), IntAt(d, 1), RecordsOf(At(d, 2)), StrAt(d, 3), NatAt(d, 4), NatAt(d, 5), NatAt(d, 6), NatAt(d, 7))
  }

  lemma BlockFieldsShaped(b: Block, i: nat)
    requires BlockFits(b) && i < 8
    ensures HasShape(BLOCK_FIELDS[i], BlockData(b).items[i])
    ensures i != 2 && i != 3 ==> Small(BLOCK_FIELDS[i], BlockData(b).items[i])
  {
    hide Pow256, RecordsData, RecordFits;
    Widths();
    if i == 2 {
      RecordsShaped(b.records);
    }
  }

  lemma BlockShaped(b: Block)
    requires BlockFits(b)
    ensures HasShape(BLOCK, BlockData(b)) && (Small(BLOCK, BlockData(b)) <==> BlockSmall(b))
    ensures BlockOf(BlockData(b)) == b
  {
    hide Pow256, RecordsData, RecordsOf, RecordFits, RecordSmall;
    RecordsShaped(b.records);
    var ds := BlockData(b).items;
    EachField(BLOCK_FIELDS, ds);
    forall i | 0 <= i < 8
      ensures HasShape(BLOCK_FIELDS[i], ds[i]) && (i != 2 && i != 3 ==> Small(BLOCK_FIELDS[i], ds[i]))
    {
      BlockFieldsShaped(b, i);
    }
    assert Small(BLOCK_FIELDS[2], ds[2]) <==> Small(Vector(RECORD), RecordsData(b.records));
    assert Small(BLOCK_FIELDS[3], ds[3]) <==> |b.previousHash| <= MAX_STRING_SIZE;
  }

  const CURRENT_VERSION := 1

  /** The stored form of a block, which is also what the hash is taken of: a version and the fields. */
  function BlockBytes(b: Block): Bytes
    requires BlockFits(b)
  {
    BlockShaped(b);
    BigEndian(CURRENT_VERSION, 2) + Pack(BLOCK, BlockData(b))
  }

  /** Versions up to the current one are read. */
  function BlockFromBytes(bytes: Bytes): Option<Block> {
    match ReadUint(bytes, 2)
    case None => None
    case Some((version, rest)) =>
      if version > CURRENT_VERSION then None
      else
        match Unpack(BLOCK, rest)
        case None => None
        case Some((d, _)) => Some(BlockOf(d))
  }

  /** A stored block reads back as itself, if and only if its hash, its records' payloads and signatures are within the
      reader's limit. */
  lemma BlockRoundTrip(b: Block)
    requires BlockFits(b)
    ensures BlockFromBytes(BlockBytes(b)) == if BlockSmall(b) then Some(b) else None
  {
    hide Pack, Unpack, BigEndian, Pow256, ReadUint, BlockFits, BlockSmall, BlockData, BlockOf;
    Widths();
    BlockShaped(b);
    UintRoundTrip(CURRENT_VERSION, 2, Pack(BLOCK, BlockData(b)));
    PackRoundTrip(BLOCK, BlockData(b), []);
    assert Pack(BLOCK, BlockData(b)) + [] == Pack(BLOCK, BlockData(b));
  }

  /** The bytes a block's hash is taken of determine every field of the block. */
  lemma BlockBytesInjective(a: Block, b: Block)
    requires BlockFits(a) && BlockFits(b) && BlockSmall(a) && BlockBytes(a) == BlockBytes(b)
    ensures a == b
  {
    hide BlockBytes, BlockFromBytes, BlockFits, BlockSmall;
    BlockRoundTrip(a);
    BlockRoundTrip(b);
  }

  // ----- chain nodes, as the ledger stores them -----

  const RAW_BLOCK: Shape := Struct([Text, Text])

  predicate NodeFits(n: ChainNode) {
    BlockFits(n.block) && |n.hash| < TWO_64 && |BlockBytes(n.block)| < TWO_64
  }

  function RawData(data: Bytes, hash: Bytes): Data {
    Items([Str(data), Str(hash)])
  }

  lemma RawShaped(data: Bytes, hash: Bytes)
    requires |data| < TWO_64 && |hash| < TWO_64
    ensures HasShape(RAW_BLOCK, RawData(data, hash))
    ensures Small(RAW_BLOCK, RawData(data, hash)) <==> |data| <= MAX_STRING_SIZE && |hash| <= MAX_STRING_SIZE
  {
    var fields, ds := [Text, Text], RawData(data, hash).items;
    EachField(fields, ds);
    assert HasShape(fields[0], ds[0]) && HasShape(fields[1], ds[1]);
    assert HaveShapes(fields, ds);
    assert Small(fields[0], ds[0]) <==> |data| <= MAX_STRING_SIZE;
    assert Small(fields[1], ds[1]) <==> |hash| <= MAX_STRING_SIZE;
  }

  function NodeBytes(n: ChainNode): Bytes
    requires NodeFits(n)
  {
    RawShaped(BlockBytes(n.block), n.hash);
    Pack(RAW_BLOCK, RawData(BlockBytes(n.block), n.hash))
  }

  function NodeFromBytes(bytes: Bytes): Option<ChainNode> {
    match Unpack(RAW_BLOCK, bytes)
    case None => None
    case Some((d, _)) =>
      match BlockFromBytes(StrAt(d, 0))
      case None => None
      case Some(b) => Some(ChainNode(b, StrAt(d, 1)))
  }

  /** What the ledger can read back: the whole packed block is one string, so it is the block's size that is limited. */
  predicate NodeReadable(n: ChainNode)
    requires NodeFits(n)
  {
    |BlockBytes(n.block)| <= MAX_STRING_SIZE && |n.hash| <= MAX_STRING_SIZE
  }

  lemma {:induction false} SmallWhenShort(shape: Shape, d: Data)
    requires HasShape(shape, d) && |Pack(shape, d)| <= MAX_STRING_SIZE
    ensures Small(shape, d)
    decreases shape, 0
  {
    match shape
    case Vector(item) => ItemsSmallWhenShort(item, d.items);
    case Struct(fields) => FieldsSmallWhenShort(fields, d.items);
    case _ =>
  }

  lemma {:induction false} ItemsSmallWhenShort(item: Shape, ds: seq<Data>)
    requires EachHasShape(item, ds) && |PackItems(item, ds)| <= MAX_STRING_SIZE
    ensures EachSmall(item, ds)
    decreases item, |ds| + 1
  {
    if ds != [] {
      SmallWhenShort(item, ds[0]);
      ItemsSmallWhenShort(item, ds[1..]);
    }
  }

  lemma {:induction false} FieldsSmallWhenShort(fields: seq<Shape>, ds: seq<Data>)
    requires HaveShapes(fields, ds) && |PackFields(fields, ds)| <= MAX_STRING_SIZE
    ensures AllSmall(fields, ds)
    decreases fields, 0
  {
    if fields != [] {
      SmallWhenShort(fields[0], ds[0]);
      FieldsSmallWhenShort(fields[1..], ds[1..]);
    }
  }

  /** A stored node reads back as itself exactly when its packed block and its hash are within the reader's limit. */
  lemma NodeRoundTrip(n: ChainNode)
    requires NodeFits(n)
    ensures NodeFromBytes(NodeBytes(n)) == if NodeReadable(n) then Some(n) else None
  {
    hide Pack, Unpack, BlockFits, BlockBytes, BlockFromBytes, BlockSmall, BlockData;
    var data := BlockBytes(n.block);
    RawShaped(data, n.hash);
    PackRoundTrip(RAW_BLOCK, RawData(data, n.hash), []);
    assert Pack(RAW_BLOCK, RawData(data, n.hash)) + [] == Pack(RAW_BLOCK, RawData(data, n.hash));
    if NodeReadable(n) {
      BlockRoundTrip(n.block);
      ReadableBlock(n.block);
    }
  }

  lemma ReadableBlock(b: Block)
    requires BlockFits(b) && |BlockBytes(b)| <= MAX_STRING_SIZE
    ensures BlockSmall(b)
  {
    hide Pack, BlockFits, BlockData, BlockSmall;
    BlockShaped(b);
    SmallWhenShort(BLOCK, BlockData(b));
  }

  // ----- typed transactions -----

  const TX_TYPES := 7

  /** The fields of each transaction type, in the order they are packed. */
  function TxFields(txType: nat): seq<Shape> {
    match txType
    case 0 => [Uint(8), Uint(8), Uint(8), Uint(8), Uint(8), Text, Uint(8), Int64, Int64]
    case 1 => [Uint(8), Text]
    case 2 => [Uint(8), Uint(8), Uint(8), Uint(8), Text, Uint(8), Int64, Int64]
    case 3 => [Uint(8), Text, Uint(8), Int64, Int64]
    case 4 => [Uint(8), Uint(8), Text, Uint(8), Int64, Int64]
    case _ => [Uint(8), Uint(8), Text]
  }

  function TypeOf(tx: TypedTx): (r: nat)
    ensures r < TX_TYPES
  {
    match tx
    case TxDefault(_, _, _, _, _, _, _) => 0
    case TxGenesis(_, _) => 1
    case TxNewUser(_, _, _, _, _, _) => 2
    case TxConfig(_, _, _) => 3
    case TxUserUpdate(_, _, _, _) => 4
    case TxRenewal(_, _, _) => 5
    case TxEndUser(_, _, _) => 6
  }

  function TxData(tx: TypedTx): seq<Data> {
    match tx
    case TxDefault(token, from, to, amount, fee, meta, w) =>
      [Number(token), Number(from), Number(to), Number(amount), Number(fee), Str(meta),
       Number(w.idempotentId), Number(w.tsMin), Number(w.tsMax)]
    case TxGenesis(fee, meta) => [Number(fee), Str(meta)]
    case TxNewUser(from, to, amount, fee, meta, w) =>
      [Number(from), Number(to), Number(amount), Number(fee), Str(meta),
       Number(w.idempotentId), Number(w.tsMin), Number(w.tsMax)]
    case TxConfig(fee, meta, w) =>
      [Number(fee), Str(meta), Number(w.idempotentId), Number(w.tsMin), Number(w.tsMax)]
    case TxUserUpdate(wallet, fee, meta, w) =>
      [Number(wallet), Number(fee), Str(meta), Number(w.idempotentId), Number(w.tsMin), Number(w.tsMax)]
    case TxRenewal(wallet, fee, meta) => [Number(wallet), Number(fee), Str(meta)]
    case TxEndUser(wallet, fee, meta) => [Number(wallet), Number(fee), Str(meta)]
  }

  function WindowAt(d: Data, i: nat): Window {
    Window(U64At(d, i), IntAt(d, i + 1), IntAt(d, i + 2))
  }

  function TxOf(txType: nat, d: Data): TypedTx {
    match txType
    case 0 => TxDefault(NatAt(d, 0), NatAt(d, 1), NatAt(d, 2), U64At(d, 3), U64At(d, 4), StrAt(d, 5), WindowAt(d, 6))
    case 1 => TxGenesis(U64At(d, 0), StrAt(d, 1))
    case 2 => TxNewUser(NatAt(d, 0), NatAt(d, 1), U64At(d, 2), U64At(d, 3), StrAt(d, 4), WindowAt(d, 5))
    case 3 => TxConfig(U64At(d, 0), StrAt(d, 1), WindowAt(d, 2))
    case 4 => TxUserUpdate(NatAt(d, 0), U64At(d, 1), StrAt(d, 2), WindowAt(d, 3))
    case 5 => TxRenewal(NatAt(d, 0), U64At(d, 1), StrAt(d, 2))
    case _ => TxEndUser(NatAt(d, 0), U64At(d, 1), StrAt(d, 2))
  }

  predicate WindowFits(w: Window) {
    InInt64(w.tsMin) && InInt64(w.tsMax)
  }

  predicate TxFits(tx: TypedTx) {
    && |tx.meta| < TWO_64
    && (tx.TxDefault? ==> tx.tokenId < TWO_64 && tx.fromWalletId < TWO_64 && tx.toWalletId < TWO_64)
    && (tx.TxNewUser? ==> tx.fromWalletId < TWO_64 && tx.toWalletId < TWO_64)
    && (tx.TxUserUpdate? || tx.TxRenewal? || tx.TxEndUser? ==> tx.walletId < TWO_64)
    && (tx.TxDefault? || tx.TxNewUser? || tx.TxConfig? || tx.TxUserUpdate? ==> WindowFits(tx.window))
  }

  lemma TxFieldShaped(tx: TypedTx, i: nat)
    requires TxFits(tx) && i < |TxFields(TypeOf(tx))|
    ensures |TxData(tx)| == |TxFields(TypeOf(tx))| && HasShape(TxFields(TypeOf(tx))[i], TxData(tx)[i])
    ensures Small(TxFields(TypeOf(tx))[i], TxData(tx)[i]) <==>
      (TxData(tx)[i].Str? ==> |TxData(tx)[i].s| <= MAX_STRING_SIZE)
  {
    hide Pow256;
    Widths();
  }

  lemma TxShaped(tx: TypedTx)
    requires TxFits(tx)
    ensures HasShape(Struct(TxFields(TypeOf(tx))), Items(TxData(tx)))
    ensures Small(Struct(TxFields(TypeOf(tx))), Items(TxData(tx))) <==> |tx.meta| <= MAX_STRING_SIZE
  {
    hide HasShape, Small, TxFits;
    var fields, ds := TxFields(TypeOf(tx)), TxData(tx);
    EachField(fields, ds);
    forall i | 0 <= i < |fields|
      ensures |ds| == |fields| && HasShape(fields[i], ds[i])
      ensures Small(fields[i], ds[i]) <==> (ds[i].Str? ==> |ds[i].s| <= MAX_STRING_SIZE)
    {
      TxFieldShaped(tx, i);
    }
    StructShaped(fields, ds);
    OnlyMeta(tx);
  }

  lemma StructShaped(fields: seq<Shape>, ds: seq<Data>)
    ensures HasShape(Struct(fields), Items(ds)) <==> HaveShapes(fields, ds)
    ensures HaveShapes(fields, ds) ==> (Small(Struct(fields), Items(ds)) <==> AllSmall(fields, ds))
  {
  }

  /** The one string among a transaction's fields is its metadata. */
  lemma OnlyMeta(tx: TypedTx)
    ensures |TxData(tx)| == |TxFields(TypeOf(tx))|
    ensures exists i: nat :: i < |TxData(tx)| && TxData(tx)[i] == Str(tx.meta)
    ensures forall i | 0 <= i < |TxData(tx)| :: TxData(tx)[i].Str? ==> TxData(tx)[i].s == tx.meta
  {
    var k: nat := match tx
      case TxDefault(_, _, _, _, _, _, _) => 5
      case TxGenesis(_, _) => 1
      case TxNewUser(_, _, _, _, _, _) => 4
      case TxConfig(_, _, _) => 1
      case TxUserUpdate(_, _, _, _) => 2
      case TxRenewal(_, _, _) => 2
      case TxEndUser(_, _, _) => 2;
    assert TxData(tx)[k] == Str(tx.meta);
  }

  lemma TxOfData(tx: TypedTx)
    ensures TxOf(TypeOf(tx), Items(TxData(tx))) == tx
  {
  }

  function TxBytes(tx: TypedTx): Bytes
    requires TxFits(tx)
  {
    TxShaped(tx);
    Pack(Struct(TxFields(TypeOf(tx))), Items(TxData(tx)))
  }

  /** Decoding a record's payload by its type; unknown types fail. */
  function DecodeRecord(r: Record): Option<TypedTx> {
    if r.recordType >= TX_TYPES then None
    else
      match Unpack(Struct(TxFields(r.recordType)), r.data)
      case None => None
      case Some((d, _)) => Some(TxOf(r.recordType, d))
  }

  /** A record of a packed transaction decodes to that transaction, exactly when its metadata is within the reader's limit. */
  lemma TxRoundTrip(tx: TypedTx, signatures: seq<Bytes>)
    requires TxFits(tx)
    ensures DecodeRecord(Record(TypeOf(tx), TxBytes(tx), signatures)) == if |tx.meta| <= MAX_STRING_SIZE then Some(tx) else None
  {
    hide Pack, Unpack, TxFits, TxFields, TxData, TxOf, HasShape, Small;
    TxShaped(tx);
    TxOfData(tx);
    PackRoundTrip(Struct(TxFields(TypeOf(tx))), Items(TxData(tx)), []);
    assert TxBytes(tx) + [] == TxBytes(tx);
  }
}
