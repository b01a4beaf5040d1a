/** The parser as the program has it: a position that advances over the text, outputs filled in loops. Each method agrees
    with the function of `Json` on the text from the position. */
module JsonParser {
  import opened Numbers
  import opened Outcomes
  import opened Sequences
  import opened MetaCodec
  import opened Json

  class Parser {
    const text: Bytes
    var p: nat

    constructor (text: Bytes)
      ensures this.text == text && p == 0 && Valid()
    {
      this.text := text;
      p := 0;
    }

    ghost predicate Valid()
      reads this
    {
      p <= |text|
    }

    ghost function Rest(): (r: Bytes)
      requires Valid()
      reads this
      ensures |r| == |text| - p
    {
      text[p..]
    }

    function Next(): (c: byte)
      requires Valid()
      reads this
      ensures c == Peek(Rest())
    {
      if p < |text| then text[p] else 0
    }

    method SkipBlanks()
      requires Valid()
      modifies this
      ensures Valid() && Rest() == SkipWs(old(Rest()))
      ensures old(p) <= p
    {
      while p < |text| && IsSpace(text[p])
        invariant old(p) <= p && Valid() && SkipWs(Rest()) == SkipWs(old(Rest()))
      {
        DropDrop(text, p, 1);
        p := p + 1;
      }
    }

    method Accept(c: byte) returns (ok: bool)
      requires Valid() && c != 0
      modifies this
      ensures Valid() && old(p) <= p && (ok <==> Consume(old(Rest()), c).Some?)
      ensures ok ==> Rest() == Consume(old(Rest()), c).value && old(p) < p
    {
      SkipBlanks();
      if Next() != c {
        return false;
      }
      DropDrop(text, p, 1);
      p := p + 1;
      return true;
    }

    method ReadHex() returns (r: Option<byte>)
      requires Valid()
      modifies this
      ensures Valid() && old(p) <= p
      ensures r.None? ==> ParseHex(old(Rest())).None?
      ensures r.Some? ==> ParseHex(old(Rest())) == Some((r.value, Rest()))
    {
      if |text| - p < 4 {
        return None;
      }
      ghost var t := Rest();
      var cp: nat := 0;
      var i := 0;
      while i < 4
        invariant i <= 4 && p == old(p) + i && Valid()
        invariant forall k | 0 <= k < i :: IsHex(t[k])
        invariant i == 0 ==> cp == 0
        invariant i == 1 ==> cp == HexValue(t[0])
        invariant i == 2 ==> cp == HexValue(t[0]) * 16 + HexValue(t[1])
        invariant i == 3 ==> cp == (HexValue(t[0]) * 16 + HexValue(t[1])) * 16 + HexValue(t[2])
        invariant i == 4 ==> cp == ((HexValue(t[0]) * 16 + HexValue(t[1])) * 16 + HexValue(t[2])) * 16 + HexValue(t[3])
      {
        var h := text[p];
        assert h == t[i];
        p := p + 1;
        if !IsHex(h) {
          return None;
        }
        cp := cp * 16 + HexValue(h);
        i := i + 1;
      }
      assert Rest() == t[4..];
      if cp < 256 {
        return Some(cp);
      }
      return None;
    }

    method ReadString() returns (r: Option<Bytes>)
      requires Valid()
      modifies this
      ensures Valid() && old(p) <= p
      ensures r.None? ==> ParseString(old(Rest())).None?
      ensures r.Some? ==> ParseString(old(Rest())) == Some((r.value, Rest())) && old(p) < p
    {
      hide ParseHex, Consume, SkipWs;
      var ok := Accept(QUOTE);
      if !ok {
        return None;
      }
      ghost var start := Rest();
      var out: Bytes := [];
      BehindNothing(ParseChars(start));
      while p < |text|
        invariant Valid() && old(p) < p
        invariant ParseChars(start) == Behind(out, ParseChars(Rest()))
      {
        ghost var here := Rest();
        var c := text[p];
        assert here[0] == c && here[1..] == text[p + 1..];
        p := p + 1;
        if c == QUOTE {
          assert out + [] == out;
          return Some(out);
        }
        if c == BACKSLASH {
          if p >= |text| {
            return None;
          }
          var e := text[p];
          assert here[1] == e && here[2..] == text[p + 1..];
          p := p + 1;
          if e == 117 {
            var h := ReadHex();
            if h.None? {
              return None;
            }
            c := h.value;
          } else {
            var u := Unescaped(e);
            if u.None? {
              return None;
            }
            c := u.value;
          }
        }
        assert ParseChar(here) == Some((c, Rest()));
        BehindOne(out, c, ParseChars(Rest()));
        out := out + [c];
      }
      return None;
    }

    method SkipDigits()
      requires Valid()
      modifies this
      ensures Valid() && p == old(p) + DigitCount(old(Rest()))
    {
      while p < |text| && IsDigit(text[p])
        invariant old(p) <= p && Valid() && p + DigitCount(Rest()) == old(p) + DigitCount(old(Rest()))
      {
        DropDrop(text, p, 1);
        p := p + 1;
      }
    }

    method SkipWhole()
      requires Valid()
      modifies this
      ensures Valid() && p == old(p) + WholeLength(old(Rest()))
    {
      hide DigitCount;
      if Next() == MINUS {
        DropDrop(text, p, 1);
        p := p + 1;
      }
      SkipDigits();
    }

    method ReadNumber(doubles: Doubles) returns (r: Option<Value>)
      requires Valid()
      modifies this
      ensures Valid() && old(p) <= p
      ensures r.None? ==> ParseNumber(doubles, old(Rest())).None?
      ensures r.Some? ==> ParseNumber(doubles, old(Rest())) == Some((r.value, Rest())) && old(p) < p
    {
      hide WholeLength, FloatTail, Converted;
      ghost var was := Rest();
      var start := p;
      SkipWhole();
      DropDrop(text, start, p - start);
      var isFloat := ReadFloatTail();
      if p == start {
        return None;
      }
      TakeDrop(text, start, p - start);
      DropDrop(text, start, p - start);
      r := Converted(doubles, text[start..p], isFloat);
    }

    method SkipFraction() returns (some: bool)
      requires Valid()
      modifies this
      ensures Valid() && p == old(p) + FractionLength(old(Rest())) && (some <==> FractionLength(old(Rest())) > 0)
    {
      hide DigitCount;
      some := p < |text| && text[p] == DOT;
      if some {
        DropDrop(text, p, 1);
        p := p + 1;
        SkipDigits();
      }
    }

    method SkipExponent() returns (some: bool)
      requires Valid()
      modifies this
      ensures Valid() && p == old(p) + ExponentLength(old(Rest())) && (some <==> ExponentLength(old(Rest())) > 0)
    {
      hide DigitCount;
      some := p < |text| && (text[p] == 101 || text[p] == 69);
      if some {
        ghost var was := Rest();
        assert was[1..] == text[p + 1..];
        p := p + 1;
        if p < |text| && (text[p] == PLUS || text[p] == MINUS) {
          assert was[2..] == text[p + 1..];
          p := p + 1;
        }
        SkipDigits();
      }
    }

    /** The fraction and the exponent; says whether there was either. */
    method ReadFloatTail() returns (isFloat: bool)
      requires Valid()
      modifies this
      ensures Valid() && p == old(p) + FloatTail(old(Rest())) && (isFloat <==> FloatTail(old(Rest())) > 0)
    {
      hide FractionLength, ExponentLength;
      ghost var was := Rest();
      var start := p;
      var fraction := SkipFraction();
      DropDrop(text, start, FractionLength(was));
      var exponent := SkipExponent();
      isFloat := fraction || exponent;
    }

    method Word(word: Bytes) returns (ok: bool)
      requires Valid() && word != []
      modifies this
      ensures Valid() && (ok <==> StartsWith(old(Rest()), word))
      ensures ok ==> Rest() == old(Rest())[|word|..] && old(p) < p
      ensures !ok ==> p == old(p)
    {
      ok := |text| - p >= |word| && text[p..p + |word|] == word;
      assert |text| - p >= |word| ==> Rest()[..|word|] == text[p..p + |word|];
      if ok {
        assert Rest()[|word|..] == text[p + |word|..];
        p := p + |word|;
      }
    }

    method ReadValue(doubles: Doubles) returns (r: Option<Value>)
      requires Valid()
      modifies this
      ensures Valid() && old(p) <= p
      ensures r.None? ==> ParseValue(doubles, old(Rest())).None?
      ensures r.Some? ==> ParseValue(doubles, old(Rest())) == Some((r.value, Rest())) && old(p) < p
      decreases |text| - p, 2
    {
      hide ParseString, ParseMeta, ParseElements, ParseNumber, SkipWs;
      SkipBlanks();
      var c := Next();
      if c == QUOTE {
        var s := ReadString();
        return if s.None? then None else Some(Value.Text(s.value));
      }
      if c == OPEN_BRACE {
        var m := ReadMeta(doubles);
        return if m.None? then None else Some(Object(m.value));
      }
      if c == OPEN_BRACKET {
        DropDrop(text, p, 1);
        p := p + 1;
        SkipBlanks();
        if Next() == CLOSE_BRACKET {
          DropDrop(text, p, 1);
          p := p + 1;
          return Some(Array([]));
        }
        var vs := ReadElements(doubles);
        return if vs.None? then None else Some(Array(vs.value));
      }
      var ok := Word(NULL_TEXT);
      if ok {
        return Some(NullMeta);
      }
      ok := Word(TRUE_TEXT);
      if ok {
        return Some(Bool(true));
      }
      ok := Word(FALSE_TEXT);
      if ok {
        return Some(Bool(false));
      }
      if c == MINUS || IsDigit(c) {
        r := ReadNumber(doubles);
        return;
      }
      return None;
    }

    method ReadElements(doubles: Doubles) returns (r: Option<seq<Value>>)
      requires Valid()
      modifies this
      ensures Valid() && old(p) <= p
      ensures r.None? ==> ParseElements(doubles, old(Rest())).None?
      ensures r.Some? ==> ParseElements(doubles, old(Rest())) == Some((r.value, Rest())) && old(p) < p
      decreases |text| - p, 3
    {
      hide ParseValue, SkipWs, Consume;
      ghost var start := Rest();
      var vs: seq<Value> := [];
      BehindNothing(ParseElements(doubles, start));
      while true
        invariant Valid() && old(p) <= p
        invariant ParseElements(doubles, start) == Behind(vs, ParseElements(doubles, Rest()))
        decreases |text| - p
      {
        ghost var here := Rest();
        var v := ReadValue(doubles);
        if v.None? {
          return None;
        }
        SkipBlanks();
        if Next() == CLOSE_BRACKET {
          DropDrop(text, p, 1);
          p := p + 1;
          return Some(vs + [v.value]);
        }
        var ok := Accept(COMMA);
        if !ok {
          return None;
        }
        BehindOne(vs, v.value, ParseElements(doubles, Rest()));
        vs := vs + [v.value];
      }
    }

    method ReadMember(doubles: Doubles) returns (r: Option<Entry>)
      requires Valid()
      modifies this
      ensures Valid() && old(p) <= p
      ensures r.None? ==> ParseMember(doubles, old(Rest())).None?
      ensures r.Some? ==> ParseMember(doubles, old(Rest())) == Some((r.value, Rest())) && old(p) < p
      decreases |text| - p, 3
    {
      hide ParseValue, ParseString, SkipWs, Consume;
      SkipBlanks();
      if Next() != QUOTE {
        return None;
      }
      var key := ReadString();
      if key.None? {
        return None;
      }
      var ok := Accept(COLON);
      if !ok {
        return None;
      }
      SkipBlanks();
      var v := ReadValue(doubles);
      return if v.None? then None else Some(Entry(key.value, v.value));
    }

    method ReadMeta(doubles: Doubles) returns (r: Option<Meta>)
      requires Valid()
      modifies this
      ensures Valid() && old(p) <= p
      ensures r.None? ==> ParseMeta(doubles, old(Rest())).None?
      ensures r.Some? ==> ParseMeta(doubles, old(Rest())) == Some((r.value, Rest())) && old(p) < p
      decreases |text| - p, 1
    {
      hide ParseMember, SkipWs, Consume, HasKey, Insert;
      ghost var start := Rest();
      var ok := Accept(OPEN_BRACE);
      if !ok {
        return None;
      }
      SkipBlanks();
      if Next() == CLOSE_BRACE {
        DropDrop(text, p, 1);
        p := p + 1;
        return Some(Meta([]));
      }
      var out: seq<Entry> := [];
      while true
        invariant Valid() && old(p) < p
        invariant ParseMeta(doubles, start) == ParseEntries(doubles, Rest(), out)
        decreases |text| - p
      {
        var e := ReadMember(doubles);
        if e.None? {
          return None;
        }
        if HasKey(out, e.value.key) {
          return None;
        }
        out := Insert(out, e.value);
        SkipBlanks();
        if Next() == CLOSE_BRACE {
          DropDrop(text, p, 1);
          p := p + 1;
          return Some(Meta(out));
        }
        ok := Accept(COMMA);
        if !ok {
          return None;
        }
      }
    }
  }

  /** What has been read so far in front of what the remaining reads give. */
  function Behind<T>(done: seq<T>, r: Option<(seq<T>, Bytes)>): Option<(seq<T>, Bytes)> {
    if r.None? then None else Some((done + r.value.0, r.value.1))
  }

  lemma BehindNothing<T>(r: Option<(seq<T>, Bytes)>)
    ensures Behind([], r) == r
  {
    if r.Some? {
      assert [] + r.value.0 == r.value.0;
    }
  }

  lemma BehindOne<T>(done: seq<T>, x: T, r: Option<(seq<T>, Bytes)>)
    ensures Behind(done + [x], r) == Behind(done, Behind([x], r))
  {
    if r.Some? {
      Assoc(done, [x], r.value.0);
    }
  }

  method MetaFromJsonString(doubles: Doubles, json: Bytes) returns (r: Option<Meta>)
    ensures r == FromJson(doubles, json)
  {
    var parser := new Parser(json);
    assert parser.Rest() == json;
    r := parser.ReadMeta(doubles);
  }
}
