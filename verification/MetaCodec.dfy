/** The wire form of metadata: an ordered map from keys to tagged values, each value packed into a length-delimited
    payload, so that values of unknown tags can be skipped. */
module MetaCodec {
  import opened Numbers
  import opened Outcomes
  import opened Sequences
  import opened Words
  import opened Archive

  const TAG_I64 := 1
  const TAG_U64 := 2
  const TAG_BOOL := 3
  const TAG_DOUBLE := 4
  const TAG_STRING := 5
  const TAG_META := 6
  const TAG_ARRAY := 7

  /** A double is its eight bytes; `NullMeta` is a null pointer to a map. */
  datatype Value =
    | I64(i: int)
    | U64(u: u64)
    | Bool(b: bool)
    | Double(bits: u64)
    | Text(s: Bytes)
    | Object(meta: Meta)
    | Array(elements: seq<Value>)
    | NullMeta

  /** The entries in the order of their keys. */
  datatype Meta = Meta(entries: seq<Entry>)

  datatype Entry = Entry(key: Bytes, value: Value)

  // ----- keys -----

  /** The order of byte strings: the first differing byte decides, a prefix comes first. */
  predicate Less(a: Bytes, b: Bytes) {
    if b == [] then false
    else if a == [] then true
    else a[0] < b[0] || (a[0] == b[0] && Less(a[1..], b[1..]))
  }

  lemma {:induction false} LessTotal(a: Bytes, b: Bytes)
    ensures Less(a, b) || Less(b, a) || a == b
    ensures !(Less(a, b) && Less(b, a)) && !Less(a, a)
  {
    if a != [] && b != [] {
      LessTotal(a[1..], b[1..]);
      LessTotal(a[1..], a[1..]);
      if a[0] == b[0] && a[1..] == b[1..] {
        assert a == [a[0]] + a[1..] && b == [b[0]] + b[1..];
      }
    } else if a != [] {
      LessTotal(a[1..], a[1..]);
    }
  }

  lemma {:induction false} LessTransitive(a: Bytes, b: Bytes, c: Bytes)
    requires Less(a, b) && Less(b, c)
    ensures Less(a, c)
  {
    if a != [] && a[0] == b[0] == c[0] {
      LessTransitive(a[1..], b[1..], c[1..]);
    }
  }

  predicate Sorted(es: seq<Entry>) {
    forall i, j | 0 <= i < j < |es| :: Less(es[i].key, es[j].key)
  }

  predicate HasKey(es: seq<Entry>, key: Bytes) {
    exists i :: 0 <= i < |es| && es[i].key == key
  }

  /** Entering a key that is not there yet, at its place in the order. */
  function Insert(es: seq<Entry>, e: Entry): (r: seq<Entry>)
    ensures |r| == |es| + 1
  {
    if es == [] then [e]
    else if Less(e.key, es[0].key) then [e] + es
    else [es[0]] + Insert(es[1..], e)
  }

  lemma {:induction false} InsertMembers(es: seq<Entry>, e: Entry)
    ensures forall x :: x in Insert(es, e) <==> x == e || x in es
  {
    if es != [] && !Less(e.key, es[0].key) {
      InsertMembers(es[1..], e);
      assert forall x :: x in es <==> x == es[0] || x in es[1..];
    }
  }

  lemma {:induction false} InsertSorted(es: seq<Entry>, e: Entry)
    requires Sorted(es) && !HasKey(es, e.key)
    ensures Sorted(Insert(es, e))
  {
    if es == [] {
    } else if Less(e.key, es[0].key) {
      forall i | 0 <= i < |es| ensures Less(e.key, es[i].key) {
        if i > 0 {
          LessTransitive(e.key, es[0].key, es[i].key);
        }
      }
    } else {
      var later := Insert(es[1..], e);
      forall i | 0 <= i < |es[1..]| ensures es[1..][i].key != e.key {
        assert es[1..][i] == es[i + 1];
      }
      InsertSorted(es[1..], e);
      InsertMembers(es[1..], e);
      LessTotal(e.key, es[0].key);
      assert es[0].key != e.key;
      forall j | 0 <= j < |later| ensures Less(es[0].key, later[j].key) {
        assert later[j] in later;
        if later[j] != e {
          var i :| 0 <= i < |es[1..]| && es[1..][i] == later[j];
          assert Less(es[0].key, es[i + 1].key);
        }
      }
    }
  }

  lemma {:induction false} InsertLast(es: seq<Entry>, e: Entry)
    requires forall i | 0 <= i < |es| :: Less(es[i].key, e.key)
    ensures Insert(es, e) == es + [e] && !HasKey(es, e.key)
  {
    if es != [] {
      LessTotal(es[0].key, e.key);
      InsertLast(es[1..], e);
      assert es == [es[0]] + es[1..];
    }
    forall i | 0 <= i < |es| ensures es[i].key != e.key {
      LessTotal(es[i].key, e.key);
    }
  }

  // ----- writing -----

  function TagOf(v: Value): (r: nat)
    ensures TAG_I64 <= r <= TAG_ARRAY
  {
    match v
    case I64(_) => TAG_I64
    case U64(_) => TAG_U64
    case Bool(_) => TAG_BOOL
    case Double(_) => TAG_DOUBLE
    case Text(_) => TAG_STRING
    case Object(_) => TAG_META
    case Array(_) => TAG_ARRAY
    case NullMeta => TAG_META
  }

  function PackMeta(m: Meta): Bytes
    decreases m, 0
  {
    BigEndian(|m.entries|, 8) + PackEntries(m.entries)
  }

  function PackEntries(es: seq<Entry>): Bytes
    decreases es, 0
  {
    if es == [] then []
    else PackString(es[0].key) + (PackWire(es[0].value) + PackEntries(es[1..]))
  }

  function PackWire(v: Value): Bytes
    decreases v, 1
  {
    BigEndian(TagOf(v), 2) + PackString(Payload(v))
  }

  function PackWires(vs: seq<Value>): Bytes
    decreases vs, 0
  {
    if vs == [] then [] else PackWire(vs[0]) + PackWires(vs[1..])
  }

  function Signed(i: int): u64 {
    if InInt64(i) then ToUint64(i) else 0
  }

  function Payload(v: Value): Bytes
    decreases v, 0
  {
    match v
    case I64(i) => BigEndian(Signed(i), 8)
    case U64(u) => BigEndian(u, 8)
    case Bool(b) => if b then [1] else [0]
    case Double(bits) => BigEndian(bits, 8)
    case Text(s) => PackString(s)
    case Object(meta) => PackMeta(meta)
    case Array(elements) => BigEndian(|elements|, 8) + PackWires(elements)
    case NullMeta => []
  }

  // ----- reading -----

  /** What a tagged payload stands for: nothing readable, an unknown tag to skip, or a value. */
  datatype Wired = Malformed | Unknown | Known(value: Value)

  function ReadWire(bytes: Bytes): (r: Option<((nat, Bytes), Bytes)>)
    ensures r.Some? ==> |bytes| == 10 + |r.value.0.1| + |r.value.1|
  {
    match ReadUint(bytes, 2)
    case None => None
    case Some((tag, rest)) =>
      match ReadString(rest)
      case None => None
      case Some((payload, behind)) => Some(((tag, payload), behind))
  }

  function WireToValue(tag: nat, payload: Bytes): Wired
    decreases |payload|, 1
  {
    if tag == TAG_I64 then
      if |payload| < 8 then Malformed else BigEndianBound(payload[..8]); Widths(); Known(I64(ToInt64(FromBigEndian(payload[..8]))))
    else if tag == TAG_U64 then
      if |payload| < 8 then Malformed else BigEndianBound(payload[..8]); Widths(); Known(U64(FromBigEndian(payload[..8])))
    else if tag == TAG_BOOL then
      if |payload| < 1 then Malformed else Known(Bool(payload[0] != 0))
    else if tag == TAG_DOUBLE then
      if |payload| < 8 then Malformed else BigEndianBound(payload[..8]); Widths(); Known(Double(FromBigEndian(payload[..8])))
    else if tag == TAG_STRING then
      (match ReadString(payload)
       case None => Malformed
       case Some((s, _)) => Known(Value.Text(s)))
    else if tag == TAG_META then
      if payload == [] then Known(Object(Meta([])))
      else
        (match UnpackMeta(payload)
         case None => Malformed
         case Some((m, _)) => Known(Object(m)))
    else if tag == TAG_ARRAY then
      (match ReadUint(payload, 8)
       case None => Malformed
       case Some((n, rest)) =>
         match ReadElements(n, rest)
         case None => Malformed
         case Some(vs) => Known(Array(vs)))
    else Unknown
  }

  /** The elements of an array; unknown tags are not skipped here. */
  function ReadElements(n: nat, bytes: Bytes): Option<seq<Value>>
    decreases |bytes|, 0
  {
    if n == 0 then Some([])
    else
      match ReadWire(bytes)
      case None => None
      case Some((wire, rest)) =>
        match WireToValue(wire.0, wire.1)
        case Malformed => None
        case Unknown => None
        case Known(v) =>
          match ReadElements(n - 1, rest)
          case None => None
          case Some(vs) => Some([v] + vs)
  }

  /** Reading a map: `None` when the archive fails. A repeated key or a malformed payload of a known tag leaves the map
      empty without failing, with the stream standing behind that entry. */
  function UnpackMeta(bytes: Bytes): Option<(Meta, Bytes)>
    decreases |bytes|, 0
  {
    match ReadUint(bytes, 8)
    case None => None
    case Some((n, rest)) => ReadEntries(n, rest, [])
  }

  function ReadEntries(n: nat, bytes: Bytes, parsed: seq<Entry>): Option<(Meta, Bytes)>
    decreases |bytes|, 0
  {
    if n == 0 then Some((Meta(parsed), bytes))
    else
      match ReadString(bytes)
      case None => None
      case Some((key, behindKey)) =>
        match ReadWire(behindKey)
        case None => None
        case Some((wire, rest)) =>
          if HasKey(parsed, key) then Some((Meta([]), rest))
          else
            match WireToValue(wire.0, wire.1)
            case Malformed => Some((Meta([]), rest))
            case Unknown => ReadEntries(n - 1, rest, parsed)
            case Known(v) => ReadEntries(n - 1, rest, Insert(parsed, Entry(key, v)))
  }

  // ----- round trip -----

  /** A null value has no payload, and no payload reads as an empty map. */
  function Filled(v: Value): Value
    decreases v, 0
  {
    match v
    case NullMeta => Object(Meta([]))
    case Object(m) => Object(FilledMeta(m))
    case Array(vs) => Array(FilledAll(vs))
    case _ => v
  }

  function FilledAll(vs: seq<Value>): (r: seq<Value>)
    ensures |r| == |vs|
    decreases vs, 0
  {
    if vs == [] then [] else [Filled(vs[0])] + FilledAll(vs[1..])
  }

  function FilledMeta(m: Meta): Meta
    decreases m, 0
  {
    Meta(FilledEntries(m.entries))
  }

  function FilledEntries(es: seq<Entry>): (r: seq<Entry>)
    ensures |r| == |es| && forall i | 0 <= i < |es| :: r[i].key == es[i].key
    decreases es, 0
  {
    if es == [] then [] else [Entry(es[0].key, Filled(es[0].value))] + FilledEntries(es[1..])
  }

  /** Keys in order at every depth and numbers within their width; null values only where they are allowed. */
  predicate WellFormed(m: Meta, nulls: bool)
    decreases m, 0
  {
    Sorted(m.entries) && EntriesWellFormed(m.entries, nulls)
  }

  predicate EntriesWellFormed(es: seq<Entry>, nulls: bool)
    decreases es, 0
  {
    es == [] || (ValueWellFormed(es[0].value, nulls) && EntriesWellFormed(es[1..], nulls))
  }

  predicate ValuesWellFormed(vs: seq<Value>, nulls: bool)
    decreases vs, 0
  {
    vs == [] || (ValueWellFormed(vs[0], nulls) && ValuesWellFormed(vs[1..], nulls))
  }

  predicate ValueWellFormed(v: Value, nulls: bool)
    decreases v, 0
  {
    match v
    case I64(i) => InInt64(i)
    case Object(m) => WellFormed(m, nulls)
    case Array(vs) => ValuesWellFormed(vs, nulls)
    case NullMeta => nulls
    case _ => true
  }

  /** Every key and every packed value of the map itself is a string the reader accepts. */
  predicate EntriesSmall(es: seq<Entry>) {
    forall i | 0 <= i < |es| :: |es[i].key| <= MAX_STRING_SIZE && |Payload(es[i].value)| <= MAX_STRING_SIZE
  }

  lemma WireRoundTrip(v: Value, rest: Bytes)
    requires |Payload(v)| < TWO_64
    ensures ReadWire(PackWire(v) + rest)
         == if |Payload(v)| <= MAX_STRING_SIZE then Some(((TagOf(v), Payload(v)), rest)) else None
  {
    hide ReadUint, ReadString, BigEndian, PackString, Payload;
    Widths();
    UintRoundTrip(TagOf(v), 2, PackString(Payload(v)) + rest);
    StringRoundTrip(Payload(v), rest);
    Assoc(BigEndian(TagOf(v), 2), PackString(Payload(v)), rest);
  }

  lemma WordRoundTrip(x: u64)
    ensures |BigEndian(x, 8)| == 8 && BigEndian(x, 8)[..8] == BigEndian(x, 8) && FromBigEndian(BigEndian(x, 8)) == x
  {
    hide BigEndian, FromBigEndian, Pow256;
    Widths();
    BigEndianRoundTrip(x, 8);
  }

  /** A packed value no longer than the limit reads back as itself, to any depth, nulls as empty maps. */
  lemma {:induction false} ValueRoundTrip(v: Value)
    requires ValueWellFormed(v, true) && |Payload(v)| <= MAX_STRING_SIZE
    ensures WireToValue(TagOf(v), Payload(v)) == Known(Filled(v))
    decreases v, 0
  {
    hide BigEndian, FromBigEndian, ReadUint, ReadString, PackString, PackMeta, PackWires, Pow256;
    match v {
      case I64(i) => WordRoundTrip(Signed(i));
      case U64(u) => WordRoundTrip(u);
      case Bool(b) =>
      case Double(bits) => WordRoundTrip(bits);
      case Text(s) =>
        StringLength(s);
        StringRoundTrip(s, []);
        assert PackString(s) + [] == PackString(s);
      case Object(m) =>
        MetaLength(m);
        EntriesShort(m.entries);
        MetaRoundTrip(m, []);
        assert PackMeta(m) + [] == PackMeta(m);
      case Array(vs) =>
        WiresLength(vs);
        Widths();
        UintRoundTrip(|vs|, 8, PackWires(vs));
        ElementsRoundTrip(vs);
      case NullMeta =>
    }
  }

  lemma StringLength(s: Bytes)
    ensures |PackString(s)| == 8 + |s|
  {
  }

  lemma MetaLength(m: Meta)
    ensures |PackMeta(m)| == 8 + |PackEntries(m.entries)|
  {
    hide PackEntries;
  }

  lemma {:induction false} WiresLength(vs: seq<Value>)
    ensures |PackWires(vs)| >= 10 * |vs|
  {
    hide Payload, BigEndian;
    if vs != [] {
      WiresLength(vs[1..]);
      StringLength(Payload(vs[0]));
    }
  }

  /** In a short packing every part is short. */
  lemma {:induction false} EntriesShort(es: seq<Entry>)
    requires |PackEntries(es)| <= MAX_STRING_SIZE
    ensures EntriesSmall(es) && 18 * |es| <= |PackEntries(es)|
  {
    hide Payload, BigEndian;
    if es != [] {
      EntriesShort(es[1..]);
      StringLength(es[0].key);
      StringLength(Payload(es[0].value));
      forall i | 0 <= i < |es|
        ensures |es[i].key| <= MAX_STRING_SIZE && |Payload(es[i].value)| <= MAX_STRING_SIZE
      {
        assert i > 0 ==> es[i] == es[1..][i - 1];
      }
    }
  }

  lemma {:induction false} ElementsRoundTrip(vs: seq<Value>)
    requires ValuesWellFormed(vs, true) && |PackWires(vs)| <= MAX_STRING_SIZE
    ensures ReadElements(|vs|, PackWires(vs)) == Some(FilledAll(vs))
    decreases vs, 0
  {
    hide Payload, BigEndian, ReadWire, WireToValue, PackWire, ValueWellFormed;
    if vs != [] {
      WireLength(vs[0]);
      WireRoundTrip(vs[0], PackWires(vs[1..]));
      ValueRoundTrip(vs[0]);
      ElementsRoundTrip(vs[1..]);
      assert vs == [vs[0]] + vs[1..];
    }
  }

  lemma WireLength(v: Value)
    ensures |PackWire(v)| == 10 + |Payload(v)|
  {
    hide Payload, BigEndian;
    StringLength(Payload(v));
  }

  /** Reading the packed entries behind those already read completes the map, if and only if keys and payloads are within
      the reader's limit; otherwise the archive fails. */
  lemma {:induction false} EntriesRoundTrip(done: seq<Entry>, es: seq<Entry>, rest: Bytes)
    requires Sorted(done + es) && EntriesWellFormed(es, true)
    requires forall i | 0 <= i < |es| :: |es[i].key| < TWO_64 && |Payload(es[i].value)| < TWO_64
    ensures ReadEntries(|es|, PackEntries(es) + rest, done)
         == if EntriesSmall(es) then Some((Meta(done + FilledEntries(es)), rest)) else None
    decreases es, 0
  {
    hide Payload, BigEndian, ReadWire, ReadString, WireToValue, PackWire, PackString, ValueWellFormed, HasKey, Insert, Sorted, Filled,
      EntriesSmall;
    if es == [] {
      assert PackEntries(es) + rest == rest && done + FilledEntries(es) == done;
      assert EntriesSmall(es) by { NoneLarge(); }
    } else {
      var e := es[0];
      var later := PackEntries(es[1..]) + rest;
      Regroup(PackString(e.key), PackWire(e.value), PackEntries(es[1..]), rest);
      Assoc(PackString(e.key), PackWire(e.value), later);
      StringRoundTrip(e.key, PackWire(e.value) + later);
      WireRoundTrip(e.value, later);
      SmallSplit(es);
      var read := Entry(e.key, Filled(e.value));
      NextKey(done, es, read);
      InsertLast(done, read);
      assert done + [read] + FilledEntries(es[1..]) == done + FilledEntries(es);
      if |e.key| <= MAX_STRING_SIZE && |Payload(e.value)| <= MAX_STRING_SIZE {
        ValueRoundTrip(e.value);
        EntriesRoundTrip(done + [read], es[1..], rest);
      }
    }
  }

  lemma NoneLarge()
    ensures EntriesSmall([])
  {
  }

  /** The key that comes next is behind all read so far. */
  lemma NextKey(done: seq<Entry>, es: seq<Entry>, read: Entry)
    requires es != [] && Sorted(done + es) && read.key == es[0].key
    ensures forall i | 0 <= i < |done| :: Less(done[i].key, read.key)
    ensures Sorted(done + [read] + es[1..])
  {
    hide Less;
    forall i | 0 <= i < |done| ensures Less(done[i].key, read.key) {
      assert (done + es)[i] == done[i] && (done + es)[|done|] == es[0];
    }
    SameKeysSorted(done + es, done + [read] + es[1..]);
  }

  lemma SameKeysSorted(es: seq<Entry>, fs: seq<Entry>)
    requires Sorted(es) && |fs| == |es| && forall i | 0 <= i < |es| :: fs[i].key == es[i].key
    ensures Sorted(fs)
  {
    hide Less;
  }

  lemma SmallSplit(es: seq<Entry>)
    requires es != []
    ensures EntriesSmall(es) <==>
      |es[0].key| <= MAX_STRING_SIZE && |Payload(es[0].value)| <= MAX_STRING_SIZE && EntriesSmall(es[1..])
  {
    hide Payload;
    if EntriesSmall(es) {
      forall i | 0 <= i < |es[1..]| ensures |es[1..][i].key| <= MAX_STRING_SIZE && |Payload(es[1..][i].value)| <= MAX_STRING_SIZE {
        assert es[1..][i] == es[i + 1];
      }
    }
    if EntriesSmall(es[1..]) {
      assert forall i | 0 < i < |es| :: es[i] == es[1..][i - 1];
    }
  }

  /** Unpacking packed metadata returns it, nulls as empty maps, and consumes exactly its bytes, if and only if every key and every packed value
      of the outermost map is within the reader's limit; the limit then holds at every depth. */
  lemma {:induction false} MetaRoundTrip(m: Meta, rest: Bytes)
    requires WellFormed(m, true) && |m.entries| < TWO_64
    requires forall i | 0 <= i < |m.entries| :: |m.entries[i].key| < TWO_64 && |Payload(m.entries[i].value)| < TWO_64
    ensures UnpackMeta(PackMeta(m) + rest) == if EntriesSmall(m.entries) then Some((FilledMeta(m), rest)) else None
    decreases m, 0
  {
    hide Payload, BigEndian, PackEntries, ReadEntries, ReadUint, EntriesWellFormed, EntriesSmall;
    var es := m.entries;
    Widths();
    assert [] + es == es && [] + FilledEntries(es) == FilledEntries(es);
    UintRoundTrip(|es|, 8, PackEntries(es) + rest);
    Assoc(BigEndian(|es|, 8), PackEntries(es), rest);
    EntriesRoundTrip([], es, rest);
  }

  // ----- what is read from any bytes -----

  /** Whatever bytes are read, the map that comes out is well-formed: keys in order and distinct at every depth, no nulls. */
  lemma {:induction false} UnpackedIsWellFormed(bytes: Bytes)
    ensures UnpackMeta(bytes).Some? ==> WellFormed(UnpackMeta(bytes).value.0, false)
    decreases |bytes|, 0
  {
    hide WellFormed, ReadEntries;
    if |bytes| >= 8 {
      EntriesReadWellFormed(FromBigEndian(bytes[..8]), bytes[8..], []);
    }
  }

  lemma {:induction false} EntriesReadWellFormed(n: nat, bytes: Bytes, parsed: seq<Entry>)
    requires Sorted(parsed) && EntriesWellFormed(parsed, false)
    ensures ReadEntries(n, bytes, parsed).Some? ==> WellFormed(ReadEntries(n, bytes, parsed).value.0, false)
    decreases |bytes|, 0
  {
    hide WireToValue, ReadWire, ReadString, HasKey, Sorted, ValueWellFormed;
    if n > 0 && ReadString(bytes).Some? && ReadWire(ReadString(bytes).value.1).Some? {
      var key := ReadString(bytes).value.0;
      var (wire, rest) := ReadWire(ReadString(bytes).value.1).value;
      NoEntries();
      if !HasKey(parsed, key) {
        ValueReadWellFormed(wire.0, wire.1);
        match WireToValue(wire.0, wire.1) {
          case Malformed =>
          case Unknown => EntriesReadWellFormed(n - 1, rest, parsed);
          case Known(v) =>
            InsertSorted(parsed, Entry(key, v));
            InsertWellFormed(parsed, Entry(key, v));
            EntriesReadWellFormed(n - 1, rest, Insert(parsed, Entry(key, v)));
        }
      }
    }
  }

  lemma NoEntries()
    ensures WellFormed(Meta([]), false)
  {
  }

  lemma {:induction false} InsertWellFormed(es: seq<Entry>, e: Entry)
    requires EntriesWellFormed(es, false) && ValueWellFormed(e.value, false)
    ensures EntriesWellFormed(Insert(es, e), false)
  {
    hide ValueWellFormed;
    if es != [] && !Less(e.key, es[0].key) {
      InsertWellFormed(es[1..], e);
      assert ([es[0]] + Insert(es[1..], e))[1..] == Insert(es[1..], e);
    } else {
      assert ([e] + es)[1..] == es;
      assert es == [] ==> [e] + es == [e];
    }
  }

  lemma {:induction false} ValueReadWellFormed(tag: nat, payload: Bytes)
    ensures WireToValue(tag, payload).Known? ==> ValueWellFormed(WireToValue(tag, payload).value, false)
    decreases |payload|, 1
  {
    hide UnpackMeta, ReadElements, WellFormed, ReadString, FromBigEndian;
    NoEntries();
    if tag == TAG_META && payload != [] {
      UnpackedIsWellFormed(payload);
    } else if tag == TAG_ARRAY && |payload| >= 8 {
      ElementsReadWellFormed(FromBigEndian(payload[..8]), payload[8..]);
    }
  }

  lemma {:induction false} ElementsReadWellFormed(n: nat, bytes: Bytes)
    ensures ReadElements(n, bytes).Some? ==> ValuesWellFormed(ReadElements(n, bytes).value, false)
    decreases |bytes|, 0
  {
    hide WireToValue, ReadWire, ValueWellFormed;
    if n > 0 && ReadWire(bytes).Some? {
      var (wire, rest) := ReadWire(bytes).value;
      ValueReadWellFormed(wire.0, wire.1);
      ElementsReadWellFormed(n - 1, rest);
    }
  }
}
