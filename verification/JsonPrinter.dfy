/** The printers as the program has them: text appended to a growing string. */
module JsonPrinter {
  import opened Numbers
  import opened Sequences
  import opened MetaCodec
  import opened Json

  class Printer {
    const doubles: Doubles
    const style: Style
    var o: Bytes

    constructor (doubles: Doubles, style: Style)
      ensures this.doubles == doubles && this.style == style && o == []
    {
      this.doubles, this.style, o := doubles, style, [];
    }

    method AppendEscapedString(s: Bytes)
      modifies this
      ensures o == old(o) + PrintString(s)
    {
      hide EscapedChar;
      o := o + [QUOTE];
      ghost var start := o;
      var i := 0;
      while i < |s|
        invariant i <= |s| && o + Escaped(s[i..]) == start + Escaped(s)
      {
        ghost var before := o;
        assert s[i..][1..] == s[i + 1..];
        o := o + EscapedChar(s[i]);
        Assoc(before, EscapedChar(s[i]), Escaped(s[i + 1..]));
        i := i + 1;
      }
      assert s[|s|..] == [] && o + [] == o;
      o := o + [QUOTE];
      Assoc(old(o), [QUOTE], Escaped(s) + [QUOTE]);
      Assoc(old(o) + [QUOTE], Escaped(s), [QUOTE]);
    }

    method AppendValue(depth: nat, v: Value)
      modifies this
      ensures o == old(o) + PrintValue(doubles, style, depth, v)
      decreases v, 1
    {
      hide PrintString, PrintInt, Decimal, Newline;
      match v
      case I64(i) => o := o + PrintInt(i);
      case U64(u) => o := o + Decimal(u);
      case Bool(b) => o := o + (if b then TRUE_TEXT else FALSE_TEXT);
      case Double(bits) => o := o + doubles.show(bits);
      case Text(s) => AppendEscapedString(s);
      case NullMeta => o := o + NULL_TEXT;
      case Object(m) => AppendMeta(depth, m);
      case Array(vs) =>
        if vs == [] {
          o := o + [OPEN_BRACKET, CLOSE_BRACKET];
        } else {
          o := o + [OPEN_BRACKET] + Newline(style, depth + 1);
          AppendElements(depth, vs);
          Opened(old(o), [OPEN_BRACKET], Newline(style, depth + 1), PrintElements(doubles, style, depth, vs));
        }
    }

    method AppendElements(depth: nat, vs: seq<Value>)
      requires vs != []
      modifies this
      ensures o == old(o) + PrintElements(doubles, style, depth, vs)
      decreases vs, 0
    {
      hide PrintValue, Newline;
      ghost var start := o;
      var i := 0;
      while i < |vs| - 1
        invariant i < |vs|
        invariant o + PrintElements(doubles, style, depth, vs[i..]) == start + PrintElements(doubles, style, depth, vs)
      {
        ghost var before := o;
        AppendValue(depth + 1, vs[i]);
        o := o + [COMMA] + Newline(style, depth + 1);
        assert vs[i..][1..] == vs[i + 1..];
        Appended(before, PrintValue(doubles, style, depth + 1, vs[i]), [COMMA], Newline(style, depth + 1),
                 PrintElements(doubles, style, depth, vs[i + 1..]));
        i := i + 1;
      }
      ghost var before := o;
      AppendValue(depth + 1, vs[i]);
      o := o + Newline(style, depth) + [CLOSE_BRACKET];
      Opened(before, PrintValue(doubles, style, depth + 1, vs[i]), Newline(style, depth), [CLOSE_BRACKET]);
    }

    method AppendMeta(depth: nat, m: Meta)
      modifies this
      ensures o == old(o) + PrintMeta(doubles, style, depth, m)
      decreases m, 0
    {
      hide Newline, PrintEntries;
      if m.entries == [] {
        o := o + [OPEN_BRACE, CLOSE_BRACE];
        return;
      }
      o := o + [OPEN_BRACE] + Newline(style, depth + 1);
      AppendEntries(depth, m.entries);
      Opened(old(o), [OPEN_BRACE], Newline(style, depth + 1), PrintEntries(doubles, style, depth, m.entries));
    }

    method AppendEntries(depth: nat, es: seq<Entry>)
      requires es != []
      modifies this
      ensures o == old(o) + PrintEntries(doubles, style, depth, es)
      decreases es, 0
    {
      hide PrintValue, PrintString, Newline, Colon;
      ghost var start := o;
      var i := 0;
      while i < |es| - 1
        invariant i < |es|
        invariant o + PrintEntries(doubles, style, depth, es[i..]) == start + PrintEntries(doubles, style, depth, es)
      {
        ghost var before := o;
        AppendMember(depth, es[i]);
        o := o + [COMMA] + Newline(style, depth + 1);
        assert es[i..][1..] == es[i + 1..];
        MemberFirst(depth, es[i..]);
        Appended(before, Member(depth, es[i]), [COMMA], Newline(style, depth + 1),
                 PrintEntries(doubles, style, depth, es[i + 1..]));
        i := i + 1;
      }
      ghost var before := o;
      AppendMember(depth, es[i]);
      MemberFirst(depth, es[i..]);
      o := o + Newline(style, depth) + [CLOSE_BRACE];
      Opened(before, Member(depth, es[i]), Newline(style, depth), [CLOSE_BRACE]);
    }

    /** A key, what separates it from its value, and the value. */
    ghost function Member(depth: nat, e: Entry): Bytes {
      PrintString(e.key) + Colon(style) + PrintValue(doubles, style, depth + 1, e.value)
    }

    lemma MemberFirst(depth: nat, es: seq<Entry>)
      requires es != []
      ensures PrintEntries(doubles, style, depth, es) == Member(depth, es[0]) +
        (if |es| == 1 then Newline(style, depth) + [CLOSE_BRACE]
         else [COMMA] + (Newline(style, depth + 1) + PrintEntries(doubles, style, depth, es[1..])))
    {
      hide PrintValue, PrintString, Newline, Colon;
      var tail := if |es| == 1 then Newline(style, depth) + [CLOSE_BRACE]
        else [COMMA] + (Newline(style, depth + 1) + PrintEntries(doubles, style, depth, es[1..]));
      var value := PrintValue(doubles, style, depth + 1, es[0].value);
      Assoc(PrintString(es[0].key), Colon(style), value + tail);
      Assoc(PrintString(es[0].key) + Colon(style), value, tail);
    }

    method AppendMember(depth: nat, e: Entry)
      modifies this
      ensures o == old(o) + Member(depth, e)
      decreases e, 2
    {
      hide PrintValue, PrintString, Colon;
      AppendEscapedString(e.key);
      o := o + Colon(style);
      AppendValue(depth + 1, e.value);
      var key, colon, value := PrintString(e.key), Colon(style), PrintValue(doubles, style, depth + 1, e.value);
      Assoc(old(o), key, colon);
      Assoc(old(o), key + colon, value);
    }
  }

  lemma Opened(before: Bytes, a: Bytes, b: Bytes, c: Bytes)
    ensures before + a + b + c == before + (a + (b + c))
  {
    Assoc(before + a, b, c);
    Assoc(before, a, b + c);
  }

  lemma Appended(before: Bytes, a: Bytes, b: Bytes, c: Bytes, d: Bytes)
    ensures before + a + b + c + d == before + (a + (b + (c + d)))
  {
    Assoc(before + a + b, c, d);
    Assoc(before + a, b, c + d);
    Assoc(before, a, b + (c + d));
  }

  method MetaToJsonString(doubles: Doubles, style: Style, m: Meta) returns (json: Bytes)
    ensures json == ToJson(doubles, style, m)
  {
    var printer := new Printer(doubles, style);
    printer.AppendMeta(0, m);
    json := printer.o;
    assert [] + ToJson(doubles, style, m) == ToJson(doubles, style, m);
  }
}
