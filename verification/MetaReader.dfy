/** Reading metadata as the program does: a loop over the entries of a stream that fills a map, and one over the elements
    of an array, agreeing with the functions of `MetaCodec`. */
module MetaReader {
  import opened Numbers
  import opened Outcomes
  import opened Sequences
  import opened Words
  import opened Archive
  import opened MetaCodec

  method ReadMeta(bytes: Bytes) returns (r: Option<(Meta, Bytes)>)
    ensures r == UnpackMeta(bytes)
    decreases |bytes|, 0
  {
    hide WireToValue, ReadWire, ReadString, HasKey, FromBigEndian;
    var count := ReadUint(bytes, 8);
    if count.None? {
      return None;
    }
    var (n, rest) := count.value;
    var parsed: seq<Entry> := [];
    var i := 0;
    while i < n
      invariant i <= n && |rest| < |bytes|
      invariant UnpackMeta(bytes) == ReadEntries(n - i, rest, parsed)
    {
      var key := ReadString(rest);
      if key.None? {
        return None;
      }
      var wire := ReadWire(key.value.1);
      if wire.None? {
        return None;
      }
      rest := wire.value.1;
      if HasKey(parsed, key.value.0) {
        return Some((Meta([]), rest));
      }
      var decoded := ReadValue(wire.value.0.0, wire.value.0.1);
      match decoded {
        case Malformed => return Some((Meta([]), rest));
        case Unknown =>
        case Known(v) => parsed := Insert(parsed, Entry(key.value.0, v));
      }
      i := i + 1;
    }
    return Some((Meta(parsed), rest));
  }

  method ReadValue(tag: nat, payload: Bytes) returns (r: Wired)
    ensures r == WireToValue(tag, payload)
    decreases |payload|, 1
  {
    hide UnpackMeta, ReadElements, ReadString, FromBigEndian;
    if tag == TAG_META && payload != [] {
      var m := ReadMeta(payload);
      return if m.None? then Malformed else Known(Object(m.value.0));
    }
    if tag == TAG_ARRAY {
      var count := ReadUint(payload, 8);
      if count.None? {
        return Malformed;
      }
      var vs := ReadArray(count.value.0, count.value.1);
      return if vs.None? then Malformed else Known(Array(vs.value));
    }
    return WireToValue(tag, payload);
  }

  /** The elements read so far in front of what the remaining reads give. */
  function Behind(vs: seq<Value>, r: Option<seq<Value>>): Option<seq<Value>> {
    if r.None? then None else Some(vs + r.value)
  }

  lemma BehindOne(vs: seq<Value>, v: Value, r: Option<seq<Value>>)
    ensures Behind(vs + [v], r) == Behind(vs, Behind([v], r))
    ensures Behind([], r) == r
  {
    if r.Some? {
      Assoc(vs, [v], r.value);
      assert [] + r.value == r.value;
    }
  }

  method ReadArray(n: nat, bytes: Bytes) returns (r: Option<seq<Value>>)
    ensures r == ReadElements(n, bytes)
    decreases |bytes|, 0
  {
    hide WireToValue, ReadWire;
    var vs: seq<Value> := [];
    var rest := bytes;
    var i := 0;
    BehindOne([], Bool(false), ReadElements(n, bytes));
    while i < n
      invariant i <= n && |rest| <= |bytes|
      invariant ReadElements(n, bytes) == Behind(vs, ReadElements(n - i, rest))
    {
      var wire := ReadWire(rest);
      if wire.None? {
        return None;
      }
      rest := wire.value.1;
      var decoded := ReadValue(wire.value.0.0, wire.value.0.1);
      match decoded {
        case Malformed => return None;
        case Unknown => return None;
        case Known(v) =>
          BehindOne(vs, v, ReadElements(n - i - 1, rest));
          vs := vs + [v];
      }
      i := i + 1;
    }
    assert vs + [] == vs;
    return Some(vs);
  }
}
