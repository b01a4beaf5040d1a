/** The binary archive: numbers in network byte order, byte strings and vectors behind a 64-bit count, structures field
    by field. A shape says which types the fields of a structure have; packing and unpacking follow the shape. */
module Archive {
  import opened Numbers
  import opened Outcomes
  import opened Sequences
  import opened Words

  const MAX_STRING_SIZE := 0x400_0000

  datatype Shape = Uint(width: nat) | Int64 | Flag | Text | Vector(item: Shape) | Struct(fields: seq<Shape>)

  datatype Data = Number(n: int) | Truth(b: bool) | Str(s: Bytes) | Items(items: seq<Data>)

  // ----- elementary reads and writes -----

  function PackString(s: Bytes): Bytes {
    BigEndian(|s|, 8) + s
  }

  function ReadUint(bytes: Bytes, width: nat): (r: Option<(nat, Bytes)>)
    ensures r.Some? <==> |bytes| >= width
    ensures r.Some? ==> |r.value.1| == |bytes| - width
  {
    if |bytes| < width then None else Some((FromBigEndian(bytes[..width]), bytes[width..]))
  }

  /** A byte string: sizes beyond the limit and truncated contents fail. */
  function ReadString(bytes: Bytes): (r: Option<(Bytes, Bytes)>)
    ensures r.Some? ==> |bytes| == 8 + |r.value.0| + |r.value.1| && |r.value.0| <= MAX_STRING_SIZE
  {
    match ReadUint(bytes, 8)
    case None => None
    case Some((size, rest)) =>
      if size > MAX_STRING_SIZE || size > |rest| then None else Some((rest[..size], rest[size..]))
  }

  // ----- shapes -----

  predicate HasShape(shape: Shape, d: Data)
    decreases shape, 0
  {
    match shape
    case Uint(width) => d.Number? && 0 <= d.n < Pow256(width)
    case Int64 => d.Number? && InInt64(d.n)
    case Flag => d.Truth?
    case Text => d.Str? && |d.s| < TWO_64
    case Vector(item) => d.Items? && |d.items| < TWO_64 && EachHasShape(item, d.items)
    case Struct(fields) => d.Items? && HaveShapes(fields, d.items)
  }

  predicate EachHasShape(item: Shape, ds: seq<Data>)
    decreases item, |ds| + 1
  {
    ds == [] || (HasShape(item, ds[0]) && EachHasShape(item, ds[1..]))
  }

  predicate HaveShapes(fields: seq<Shape>, ds: seq<Data>)
    decreases fields, 0
  {
    if fields == [] || ds == [] then fields == [] && ds == []
    else HasShape(fields[0], ds[0]) && HaveShapes(fields[1..], ds[1..])
  }

  function Pack(shape: Shape, d: Data): Bytes
    requires HasShape(shape, d)
    decreases shape, 0
  {
    match shape
    case Uint(width) => BigEndian(d.n, width)
    case Int64 => BigEndian(ToUint64(d.n), 8)
    case Flag => if d.b then [1] else [0]
    case Text => PackString(d.s)
    case Vector(item) => BigEndian(|d.items|, 8) + PackItems(item, d.items)
    case Struct(fields) => PackFields(fields, d.items)
  }

  function PackItems(item: Shape, ds: seq<Data>): Bytes
    requires EachHasShape(item, ds)
    decreases item, |ds| + 1
  {
    if ds == [] then [] else Pack(item, ds[0]) + PackItems(item, ds[1..])
  }

  function PackFields(fields: seq<Shape>, ds: seq<Data>): Bytes
    requires HaveShapes(fields, ds)
    decreases fields, 0
  {
    if fields == [] then [] else Pack(fields[0], ds[0]) + PackFields(fields[1..], ds[1..])
  }

  /** The value at the front of the bytes and the bytes behind it; `None` when the archive fails. */
  function Unpack(shape: Shape, bytes: Bytes): Option<(Data, Bytes)>
    decreases shape, 0
  {
    match shape
    case Uint(width) =>
      (match ReadUint(bytes, width)
       case None => None
       case Some((n, rest)) => Some((Number(n), rest)))
    case Int64 =>
      (match ReadUint(bytes, 8)
       case None => None
       case Some((n, rest)) => BigEndianBound(bytes[..8]); Widths(); Some((Number(ToInt64(n)), rest)))
    case Flag =>
      (match ReadUint(bytes, 1)
       case None => None
       case Some((n, rest)) => Some((Truth(n != 0), rest)))
    case Text =>
      (match ReadString(bytes)
       case None => None
       case Some((s, rest)) => Some((Str(s), rest)))
    case Vector(item) =>
      (match ReadUint(bytes, 8)
       case None => None
       case Some((n, rest)) =>
         match UnpackItems(item, n, rest)
         case None => None
         case Some((ds, behind)) => Some((Items(ds), behind)))
    case Struct(fields) =>
      match UnpackFields(fields, bytes)
      case None => None
      case Some((ds, behind)) => Some((Items(ds), behind))
  }

  function UnpackItems(item: Shape, n: nat, bytes: Bytes): Option<(seq<Data>, Bytes)>
    decreases item, n + 1
  {
    if n == 0 then Some(([], bytes))
    else
      match Unpack(item, bytes)
      case None => None
      case Some((d, rest)) =>
        match UnpackItems(item, n - 1, rest)
        case None => None
        case Some((ds, behind)) => Some(([d] + ds, behind))
  }

  function UnpackFields(fields: seq<Shape>, bytes: Bytes): Option<(seq<Data>, Bytes)>
    decreases fields, 0
  {
    if fields == [] then Some(([], bytes))
    else
      match Unpack(fields[0], bytes)
      case None => None
      case Some((d, rest)) =>
        match UnpackFields(fields[1..], rest)
        case None => None
        case Some((ds, behind)) => Some(([d] + ds, behind))
  }

  // ----- round trip -----

  /** Every string in the value is one the reader accepts. */
  predicate Small(shape: Shape, d: Data)
    requires HasShape(shape, d)
    decreases shape, 0
  {
    match shape
    case Text => |d.s| <= MAX_STRING_SIZE
    case Vector(item) => EachSmall(item, d.items)
    case Struct(fields) => AllSmall(fields, d.items)
    case _ => true
  }

  predicate EachSmall(item: Shape, ds: seq<Data>)
    requires EachHasShape(item, ds)
    decreases item, |ds| + 1
  {
    ds == [] || (Small(item, ds[0]) && EachSmall(item, ds[1..]))
  }

  predicate AllSmall(fields: seq<Shape>, ds: seq<Data>)
    requires HaveShapes(fields, ds)
    decreases fields, 0
  {
    fields == [] || (Small(fields[0], ds[0]) && AllSmall(fields[1..], ds[1..]))
  }

  lemma UintRoundTrip(n: nat, width: nat, rest: Bytes)
    requires n < Pow256(width)
    ensures ReadUint(BigEndian(n, width) + rest, width) == Some((n, rest))
  {
    hide BigEndian, FromBigEndian, Pow256;
    BigEndianRoundTrip(n, width);
    Front(BigEndian(n, width), rest);
  }

  lemma StringRoundTrip(s: Bytes, rest: Bytes)
    requires |s| < TWO_64
    ensures ReadString(PackString(s) + rest) == if |s| <= MAX_STRING_SIZE then Some((s, rest)) else None
  {
    hide ReadUint, BigEndian;
    Widths();
    UintRoundTrip(|s|, 8, s + rest);
    Assoc(BigEndian(|s|, 8), s, rest);
    Front(s, rest);
  }

  /** Unpacking what was packed returns the value and consumes exactly its bytes, if and only if no string in it is larger
      than the reader's limit. */
  lemma {:induction false} PackRoundTrip(shape: Shape, d: Data, rest: Bytes)
    requires HasShape(shape, d)
    ensures Unpack(shape, Pack(shape, d) + rest) == if Small(shape, d) then Some((d, rest)) else None
    decreases shape, 0
  {
    hide BigEndian, FromBigEndian, Pow256, ReadUint, ReadString, PackString;
    Widths();
    match shape {
      case Uint(width) => UintRoundTrip(d.n, width, rest);
      case Int64 => UintRoundTrip(ToUint64(d.n), 8, rest);
      case Flag => FlagRoundTrip(d.b, rest);
      case Text => StringRoundTrip(d.s, rest);
      case Vector(item) =>
        UintRoundTrip(|d.items|, 8, PackItems(item, d.items) + rest);
        Assoc(BigEndian(|d.items|, 8), PackItems(item, d.items), rest);
        ItemsRoundTrip(item, d.items, rest);
      case Struct(fields) => FieldsRoundTrip(fields, d.items, rest);
    }
  }

  lemma FlagRoundTrip(b: bool, rest: Bytes)
    ensures ReadUint((if b then [1] else [0]) + rest, 1) == Some((if b then 1 else 0, rest))
  {
    var bytes := (if b then [1] else [0]) + rest;
    assert bytes[..1] == [if b then 1 else 0] && bytes[1..] == rest;
    assert bytes[..1][..0] == [];
    assert FromBigEndian([]) == 0;
  }

  lemma {:induction false} ItemsRoundTrip(item: Shape, ds: seq<Data>, rest: Bytes)
    requires EachHasShape(item, ds)
    ensures UnpackItems(item, |ds|, PackItems(item, ds) + rest)
         == if EachSmall(item, ds) then Some((ds, rest)) else None
    decreases item, |ds| + 1
  {
    if ds == [] {
      assert PackItems(item, ds) + rest == rest;
    } else {
      assert [ds[0]] + ds[1..] == ds;
      PackRoundTrip(item, ds[0], PackItems(item, ds[1..]) + rest);
      Assoc(Pack(item, ds[0]), PackItems(item, ds[1..]), rest);
      ItemsRoundTrip(item, ds[1..], rest);
    }
  }

  lemma {:induction false} FieldsRoundTrip(fields: seq<Shape>, ds: seq<Data>, rest: Bytes)
    requires HaveShapes(fields, ds)
    ensures UnpackFields(fields, PackFields(fields, ds) + rest)
         == if AllSmall(fields, ds) then Some((ds, rest)) else None
    decreases fields, 0
  {
    if fields == [] {
      assert PackFields(fields, ds) + rest == rest;
    } else {
      assert [ds[0]] + ds[1..] == ds;
      PackRoundTrip(fields[0], ds[0], PackFields(fields[1..], ds[1..]) + rest);
      Assoc(Pack(fields[0], ds[0]), PackFields(fields[1..], ds[1..]), rest);
      FieldsRoundTrip(fields[1..], ds[1..], rest);
    }
  }

  /** Two values of one shape with the same bytes are the same value. */
  lemma PackInjective(shape: Shape, a: Data, b: Data)
    requires HasShape(shape, a) && HasShape(shape, b) && Small(shape, a)
    requires Pack(shape, a) == Pack(shape, b)
    ensures a == b
  {
    hide Unpack, Pack;
    PackRoundTrip(shape, a, []);
    PackRoundTrip(shape, b, []);
  }

  /** Whatever is unpacked has the shape asked for, and only small strings. */
  lemma {:induction false} UnpackedShape(shape: Shape, bytes: Bytes)
    ensures Unpack(shape, bytes).Some? ==>
      HasShape(shape, Unpack(shape, bytes).value.0) && Small(shape, Unpack(shape, bytes).value.0)
    decreases shape, 0
  {
    Widths();
    match shape {
      case Uint(width) => if |bytes| >= width { BigEndianBound(bytes[..width]); }
      case Int64 =>
      case Flag =>
      case Text =>
      case Vector(item) =>
        if |bytes| >= 8 {
          BigEndianBound(bytes[..8]);
          UnpackedItems(item, FromBigEndian(bytes[..8]), bytes[8..]);
        }
      case Struct(fields) => UnpackedFields(fields, bytes);
    }
  }

  lemma {:induction false} UnpackedItems(item: Shape, n: nat, bytes: Bytes)
    ensures var r := UnpackItems(item, n, bytes); r.Some? ==>
      |r.value.0| == n && EachHasShape(item, r.value.0) && EachSmall(item, r.value.0)
    decreases item, n + 1
  {
    if n > 0 && Unpack(item, bytes).Some? {
      UnpackedShape(item, bytes);
      UnpackedItems(item, n - 1, Unpack(item, bytes).value.1);
    }
  }

  lemma {:induction false} UnpackedFields(fields: seq<Shape>, bytes: Bytes)
    ensures var r := UnpackFields(fields, bytes); r.Some? ==> HaveShapes(fields, r.value.0) && AllSmall(fields, r.value.0)
    decreases fields, 0
  {
    if fields != [] && Unpack(fields[0], bytes).Some? {
      UnpackedShape(fields[0], bytes);
      UnpackedFields(fields[1..], Unpack(fields[0], bytes).value.1);
    }
  }
}
