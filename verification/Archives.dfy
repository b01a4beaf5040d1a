/** The archives as objects over a stream: writing appends, reading consumes and remembers a failure. */
module Archives {
  import opened Numbers
  import opened Outcomes
  import opened Sequences
  import opened Words
  import opened Archive

  class OutputArchive {
    var stream: Bytes

    constructor ()
      ensures stream == []
    {
      stream := [];
    }

    method WriteUint(n: nat, width: nat)
      modifies this
      ensures stream == old(stream) + BigEndian(n, width)
    {
      stream := stream + BigEndian(n, width);
    }

    method WriteString(s: Bytes)
      modifies this
      ensures stream == old(stream) + PackString(s)
    {
      WriteUint(|s|, 8);
      if |s| > 0 {
        stream := stream + s;
      }
      Assoc(old(stream), BigEndian(|s|, 8), s);
    }

    method Write(shape: Shape, d: Data)
      requires HasShape(shape, d)
      modifies this
      ensures stream == old(stream) + Pack(shape, d)
      decreases shape, 0
    {
      hide BigEndian, PackString;
      match shape
      case Uint(width) => WriteUint(d.n, width);
      case Int64 => WriteUint(ToUint64(d.n), 8);
      case Flag => stream := stream + (if d.b then [1] else [0]);
      case Text => WriteString(d.s);
      case Vector(item) =>
        WriteUint(|d.items|, 8);
        WriteItems(item, d.items);
        Assoc(old(stream), BigEndian(|d.items|, 8), PackItems(item, d.items));
      case Struct(fields) => WriteFields(fields, d.items);
    }

    method WriteItems(item: Shape, ds: seq<Data>)
      requires EachHasShape(item, ds)
      modifies this
      ensures stream == old(stream) + PackItems(item, ds)
      decreases item, |ds| + 1
    {
      hide Pack, HasShape;
      ghost var was := stream;
      var i := 0;
      while i < |ds|
        invariant i <= |ds| && EachHasShape(item, ds[i..])
        invariant stream + PackItems(item, ds[i..]) == was + PackItems(item, ds)
      {
        ghost var before := stream;
        var d := ds[i];
        Write(item, d);
        assert ds[i..][1..] == ds[i + 1..];
        Assoc(before, Pack(item, d), PackItems(item, ds[i + 1..]));
        i := i + 1;
      }
      assert ds[|ds|..] == [];
    }

    method WriteFields(fields: seq<Shape>, ds: seq<Data>)
      requires HaveShapes(fields, ds)
      modifies this
      ensures stream == old(stream) + PackFields(fields, ds)
      decreases fields, 0
    {
      hide Pack, HasShape;
      if fields != [] {
        Write(fields[0], ds[0]);
        WriteFields(fields[1..], ds[1..]);
        Assoc(old(stream), Pack(fields[0], ds[0]), PackFields(fields[1..], ds[1..]));
      }
    }
  }

  class InputArchive {
    /** What of the stream has not been read. */
    var rest: Bytes
    var failed: bool

    constructor (bytes: Bytes)
      ensures rest == bytes && !failed
    {
      rest, failed := bytes, false;
    }

    method ReadNumber(width: nat) returns (n: nat)
      requires !failed
      modifies this
      ensures failed <==> ReadUint(old(rest), width).None?
      ensures !failed ==> ReadUint(old(rest), width) == Some((n, rest))
    {
      n := 0;
      if |rest| < width {
        failed := true;
        return;
      }
      n := FromBigEndian(rest[..width]);
      rest := rest[width..];
    }

    method ReadText() returns (s: Bytes)
      requires !failed
      modifies this
      ensures failed <==> ReadString(old(rest)).None?
      ensures !failed ==> ReadString(old(rest)) == Some((s, rest))
    {
      s := [];
      var size := ReadNumber(8);
      if failed {
        return;
      }
      if size > MAX_STRING_SIZE {
        failed := true;
        return;
      }
      if size > |rest| {
        failed := true;
        return;
      }
      s := rest[..size];
      rest := rest[size..];
    }

    /** Reads one value of the shape; `failed` says whether that succeeded. */
    method Read(shape: Shape) returns (d: Data)
      requires !failed
      modifies this
      ensures failed <==> Unpack(shape, old(rest)).None?
      ensures !failed ==> Unpack(shape, old(rest)) == Some((d, rest))
      decreases shape, 0
    {
      hide FromBigEndian, ReadUint, ReadString;
      d := Truth(false);
      match shape
      case Uint(width) =>
        var n := ReadNumber(width);
        d := Number(n);
      case Int64 =>
        Widths();
        if |rest| >= 8 {
          BigEndianBound(rest[..8]);
        }
        NumberFits(rest);
        var n := ReadNumber(8);
        if !failed {
          d := Number(ToInt64(n));
        }
      case Flag =>
        var n := ReadNumber(1);
        d := Truth(n != 0);
      case Text =>
        var s := ReadText();
        d := Str(s);
      case Vector(item) =>
        var size := ReadNumber(8);
        if failed {
          return;
        }
        var items := ReadItems(item, size);
        d := Items(items);
      case Struct(fields) =>
        var items := ReadFields(fields);
        d := Items(items);
    }

    method ReadItems(item: Shape, size: nat) returns (ds: seq<Data>)
      requires !failed
      modifies this
      ensures failed <==> UnpackItems(item, size, old(rest)).None?
      ensures !failed ==> UnpackItems(item, size, old(rest)) == Some((ds, rest))
      decreases item, size + 1
    {
      hide Unpack;
      ghost var was := rest;
      ds := [];
      BehindNothing(UnpackItems(item, size, rest));
      var i := 0;
      while i < size
        invariant i <= size && !failed
        invariant UnpackItems(item, size, was) == Behind(ds, UnpackItems(item, size - i, rest))
      {
        var d := Read(item);
        if failed {
          return;
        }
        BehindOne(ds, d, UnpackItems(item, size - i - 1, rest));
        ds := ds + [d];
        i := i + 1;
      }
      assert ds + [] == ds;
    }

    method ReadFields(fields: seq<Shape>) returns (ds: seq<Data>)
      requires !failed
      modifies this
      ensures failed <==> UnpackFields(fields, old(rest)).None?
      ensures !failed ==> UnpackFields(fields, old(rest)) == Some((ds, rest))
      decreases fields, 0
    {
      hide Unpack;
      ds := [];
      if fields != [] {
        var d := Read(fields[0]);
        if failed {
          return;
        }
        var more := ReadFields(fields[1..]);
        ds := [d] + more;
      }
    }
  }

  /** The items read so far in front of what the remaining reads give. */
  function Behind(ds: seq<Data>, r: Option<(seq<Data>, Bytes)>): Option<(seq<Data>, Bytes)> {
    if r.None? then None else Some((ds + r.value.0, r.value.1))
  }

  lemma BehindNothing(r: Option<(seq<Data>, Bytes)>)
    ensures Behind([], r) == r
  {
    if r.Some? {
      assert [] + r.value.0 == r.value.0;
    }
  }

  lemma BehindOne(ds: seq<Data>, d: Data, r: Option<(seq<Data>, Bytes)>)
    ensures Behind(ds + [d], r) == Behind(ds, Behind([d], r))
  {
    if r.Some? {
      Assoc(ds, [d], r.value.0);
    }
  }

  lemma NumberFits(bytes: Bytes)
    ensures ReadUint(bytes, 8).Some? ==> ReadUint(bytes, 8).value.0 < TWO_64
  {
    Widths();
    if |bytes| >= 8 {
      BigEndianBound(bytes[..8]);
    }
  }
}
