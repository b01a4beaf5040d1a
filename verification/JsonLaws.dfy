/** The printer and the parser undo each other: every text printed from plain metadata, in either layout, parses back to
    the same metadata, with non-negative signed integers read as unsigned. */
module JsonLaws {
  import opened Numbers
  import opened Outcomes
  import opened Sequences
  import opened MetaCodec
  import opened Json

  // ----- what comes back -----

  function Reread(v: Value): Value
    decreases v, 0
  {
    match v
    case I64(i) => if 0 <= i < TWO_64 then U64(i) else v
    case Object(m) => Object(RereadMeta(m))
    case Array(vs) => Array(RereadAll(vs))
    case _ => v
  }

  function RereadAll(vs: seq<Value>): (r: seq<Value>)
    ensures |r| == |vs|
    decreases vs, 0
  {
    if vs == [] then [] else [Reread(vs[0])] + RereadAll(vs[1..])
  }

  function RereadMeta(m: Meta): Meta
    decreases m, 0
  {
    Meta(RereadEntries(m.entries))
  }

  function RereadEntries(es: seq<Entry>): (r: seq<Entry>)
    ensures |r| == |es| && forall i | 0 <= i < |es| :: r[i].key == es[i].key
    decreases es, 0
  {
    if es == [] then [] else [Entry(es[0].key, Reread(es[0].value))] + RereadEntries(es[1..])
  }

  /** No doubles; keys in order and integers within their width. */
  predicate Plain(v: Value)
    decreases v, 0
  {
    match v
    case I64(i) => InInt64(i)
    case Double(_) => false
    case Object(m) => PlainMeta(m)
    case Array(vs) => AllPlain(vs)
    case _ => true
  }

  predicate AllPlain(vs: seq<Value>)
    decreases vs, 0
  {
    vs == [] || (Plain(vs[0]) && AllPlain(vs[1..]))
  }

  predicate PlainMeta(m: Meta)
    decreases m, 0
  {
    Sorted(m.entries) && PlainEntries(m.entries)
  }

  predicate PlainEntries(es: seq<Entry>)
    decreases es, 0
  {
    es == [] || (Plain(es[0].value) && PlainEntries(es[1..]))
  }

  // ----- white space -----

  predicate StartsSolid(text: Bytes) {
    text != [] && !IsSpace(text[0])
  }

  lemma SkipNothing(text: Bytes)
    requires text == [] || !IsSpace(text[0])
    ensures SkipWs(text) == text
  {
  }

  lemma {:induction false} SkipSpaces(n: nat, text: Bytes)
    requires StartsSolid(text)
    ensures SkipWs(Spaces(n) + text) == text
  {
    if n == 0 {
      assert Spaces(n) + text == text;
    } else {
      assert Spaces(n)[1..] == Spaces(n - 1);
      assert (Spaces(n) + text)[1..] == Spaces(n - 1) + text;
      SkipSpaces(n - 1, text);
    }
  }

  lemma SkipNewline(style: Style, depth: nat, text: Bytes)
    requires StartsSolid(text)
    ensures SkipWs(Newline(style, depth) + text) == text
  {
    hide Spaces;
    match style {
      case Compact => assert Newline(style, depth) + text == text;
      case Pretty(indent) =>
        var blanks := if indent > 0 && depth > 0 then Spaces(indent * depth) else [];
        NoSpaces();
        SkipSpaces(if indent > 0 && depth > 0 then indent * depth else 0, text);
        SkipOne(blanks, text);
    }
  }

  lemma SkipOne(blanks: Bytes, text: Bytes)
    ensures SkipWs([NEWLINE] + blanks + text) == SkipWs(blanks + text)
  {
    Assoc([NEWLINE], blanks, text);
    assert ([NEWLINE] + (blanks + text))[1..] == blanks + text;
  }

  lemma NoSpaces()
    ensures Spaces(0) == []
  {
  }

  lemma ValueSkips(doubles: Doubles, text: Bytes)
    ensures ParseValue(doubles, SkipWs(text)) == ParseValue(doubles, text)
  {
    hide ParseString, ParseMeta, ParseElements, ParseNumber, StartsWith, Peek, SkipWs;
    SkipNothing(SkipWs(text));
  }

  lemma ElementsSkip(doubles: Doubles, text: Bytes, solid: Bytes)
    requires SkipWs(text) == solid
    ensures ParseElements(doubles, text) == ParseElements(doubles, solid)
  {
    hide ParseValue, SkipWs;
    ValueSkips(doubles, text);
  }

  lemma EntriesSkip(doubles: Doubles, text: Bytes, solid: Bytes, parsed: seq<Entry>)
    requires SkipWs(text) == solid
    ensures ParseEntries(doubles, text, parsed) == ParseEntries(doubles, solid, parsed)
  {
    hide ParseMember, SkipWs, Consume, HasKey, Insert;
    MemberSkips(doubles, text, solid);
  }

  lemma MemberSkips(doubles: Doubles, text: Bytes, solid: Bytes)
    requires SkipWs(text) == solid
    ensures ParseMember(doubles, text) == ParseMember(doubles, solid)
  {
    hide ParseValue, SkipWs, ParseString, Consume;
    SkipNothing(solid);
  }

  lemma ConsumeNext(text: Bytes, c: byte)
    requires c != 0 && !IsSpace(c)
    ensures Consume([c] + text, c) == Some(text)
  {
    SkipNothing([c] + text);
    assert ([c] + text)[1..] == text;
  }

  // ----- strings -----

  lemma HexBack(c: byte, rest: Bytes)
    requires c < 0x20
    ensures ParseHex([ZERO, ZERO, HexDigit(c / 16), HexDigit(c % 16)] + rest) == Some((c, rest))
  {
    var text := [ZERO, ZERO, HexDigit(c / 16), HexDigit(c % 16)] + rest;
    assert text[4..] == rest;
    assert HexValue(text[2]) == c / 16 && HexValue(text[3]) == c % 16;
  }

  lemma CharBack(c: byte, rest: Bytes)
    ensures EscapedChar(c)[0] != QUOTE
    ensures ParseChar(EscapedChar(c) + rest) == Some((c, rest))
  {
    hide ParseHex, HexDigit;
    var text := EscapedChar(c) + rest;
    if text[0] != BACKSLASH {
      assert text[1..] == rest;
    } else if text[1] == 117 {
      HexBack(c, rest);
      assert text[2..] == [ZERO, ZERO, HexDigit(c / 16), HexDigit(c % 16)] + rest;
    } else {
      assert text[2..] == rest;
    }
  }

  lemma {:induction false} CharsBack(s: Bytes, rest: Bytes)
    ensures ParseChars(Escaped(s) + ([QUOTE] + rest)) == Some((s, rest))
  {
    hide ParseChar, EscapedChar;
    var end := [QUOTE] + rest;
    if s == [] {
      assert Escaped(s) + end == end && end[1..] == rest;
    } else {
      CharBack(s[0], Escaped(s[1..]) + end);
      Assoc(EscapedChar(s[0]), Escaped(s[1..]), end);
      CharsBack(s[1..], rest);
      assert [s[0]] + s[1..] == s;
    }
  }

  lemma StringBack(s: Bytes, rest: Bytes)
    ensures ParseString(PrintString(s) + rest) == Some((s, rest))
    ensures StartsSolid(PrintString(s) + rest) && (PrintString(s) + rest)[0] == QUOTE
  {
    hide Escaped, ParseChars, Consume;
    Assoc([QUOTE], Escaped(s) + [QUOTE], rest);
    Assoc(Escaped(s), [QUOTE], rest);
    ConsumeNext(Escaped(s) + ([QUOTE] + rest), QUOTE);
    CharsBack(s, rest);
  }

  // ----- numbers -----

  lemma {:induction false} DecimalBack(n: nat)
    ensures AllDigits(Decimal(n)) && DigitsValue(Decimal(n)) == n
  {
    if n < 10 {
      assert Decimal(n)[..0] == [];
    } else {
      DecimalBack(n / 10);
      assert Decimal(n)[..|Decimal(n)| - 1] == Decimal(n / 10);
    }
  }

  /** Text that cannot continue a number. */
  predicate NumberEnds(rest: Bytes) {
    rest != [] ==> !IsDigit(rest[0]) && rest[0] != DOT && rest[0] != 101 && rest[0] != 69
  }

  lemma {:induction false} DigitsCounted(ds: Bytes, rest: Bytes)
    requires AllDigits(ds) && (rest == [] || !IsDigit(rest[0]))
    ensures DigitCount(ds + rest) == |ds|
  {
    if ds == [] {
      assert ds + rest == rest;
    } else {
      assert (ds + rest)[1..] == ds[1..] + rest;
      DigitsCounted(ds[1..], rest);
    }
  }

  lemma NoTail(rest: Bytes)
    requires NumberEnds(rest)
    ensures FloatTail(rest) == 0
  {
    assert rest[0..] == rest;
  }

  lemma NumberText(doubles: Doubles, num: Bytes, rest: Bytes)
    requires num != [] && WholeLength(num + rest) == |num| && NumberEnds(rest)
    ensures ParseNumber(doubles, num + rest)
         == if Converted(doubles, num, false).None? then None else Some((Converted(doubles, num, false).value, rest))
  {
    hide WholeLength, FloatTail, Converted;
    Front(num, rest);
    NoTail(rest);
  }

  lemma UnsignedBack(doubles: Doubles, n: nat, rest: Bytes)
    requires n < TWO_64 && NumberEnds(rest)
    ensures ParseNumber(doubles, Decimal(n) + rest) == Some((U64(n), rest))
  {
    hide Decimal, DigitsValue, DigitCount, ParseNumber;
    DecimalBack(n);
    DigitsCounted(Decimal(n), rest);
    assert (Decimal(n) + rest)[0] == Decimal(n)[0];
    NumberText(doubles, Decimal(n), rest);
  }

  lemma NegativeBack(doubles: Doubles, n: nat, rest: Bytes)
    requires n <= TWO_63 && NumberEnds(rest)
    ensures ParseNumber(doubles, [MINUS] + Decimal(n) + rest) == Some((I64(-(n as int)), rest))
  {
    hide Decimal, DigitsValue, DigitCount, ParseNumber;
    DecimalBack(n);
    DigitsCounted(Decimal(n), rest);
    Assoc([MINUS], Decimal(n), rest);
    assert ([MINUS] + (Decimal(n) + rest))[1..] == Decimal(n) + rest;
    assert ([MINUS] + Decimal(n))[1..] == Decimal(n);
    NumberText(doubles, [MINUS] + Decimal(n), rest);
  }

  /** Text that starts a number and nothing else. */
  predicate StartsNumber(text: Bytes) {
    text != [] && (text[0] == MINUS || IsDigit(text[0]))
  }

  lemma NumberParsed(doubles: Doubles, text: Bytes)
    requires StartsNumber(text)
    ensures ParseValue(doubles, text) == ParseNumber(doubles, text)
  {
    hide ParseNumber, ParseMeta, ParseElements, ParseString;
    SkipNothing(text);
    assert NULL_TEXT[0] != text[0] && TRUE_TEXT[0] != text[0] && FALSE_TEXT[0] != text[0];
  }

  lemma IntBack(doubles: Doubles, i: int, rest: Bytes)
    requires INT64_MIN <= i < TWO_64 && NumberEnds(rest)
    ensures ParseValue(doubles, PrintInt(i) + rest) == Some((if i < 0 then I64(i) else U64(i), rest))
    ensures StartsSolid(PrintInt(i))
  {
    hide Decimal, ParseNumber, ParseValue;
    DecimalBack(if i < 0 then -i else i);
    var text := PrintInt(i) + rest;
    if i < 0 {
      NegativeBack(doubles, -i, rest);
    } else {
      UnsignedBack(doubles, i, rest);
      assert text[0] == Decimal(i)[0];
    }
    NumberParsed(doubles, text);
  }

  // ----- layout -----

  lemma NewlineEndsNumber(style: Style, depth: nat, text: Bytes)
    requires text != [] && NumberEnds(text)
    ensures NumberEnds(Newline(style, depth) + text)
  {
    hide Spaces;
    if style.Compact? {
      assert Newline(style, depth) + text == text;
    }
  }

  /** The closing bracket or brace behind the last element. */
  lemma Closing(style: Style, depth: nat, c: byte, rest: Bytes)
    requires c == CLOSE_BRACE || c == CLOSE_BRACKET
    ensures var tail := Newline(style, depth) + [c] + rest;
      NumberEnds(tail) && SkipWs(tail) == [c] + rest && Peek([c] + rest) == c && ([c] + rest)[1..] == rest
  {
    hide Newline, SkipWs;
    Assoc(Newline(style, depth), [c], rest);
    NewlineEndsNumber(style, depth, [c] + rest);
    SkipNewline(style, depth, [c] + rest);
  }

  /** The comma between elements, and the white space behind it. */
  lemma Separator(style: Style, depth: nat, more: Bytes, rest: Bytes)
    requires StartsSolid(more)
    ensures var tail := [COMMA] + (Newline(style, depth) + more) + rest;
      && NumberEnds(tail) && SkipWs(tail) == tail && Peek(tail) == COMMA
      && Consume(tail, COMMA) == Some(Newline(style, depth) + (more + rest))
      && SkipWs(Newline(style, depth) + (more + rest)) == more + rest
  {
    hide Newline, SkipWs, Consume;
    Assoc([COMMA], Newline(style, depth) + more, rest);
    Assoc(Newline(style, depth), more, rest);
    var tail := [COMMA] + (Newline(style, depth) + (more + rest));
    SkipNothing(tail);
    ConsumeNext(Newline(style, depth) + (more + rest), COMMA);
    SkipNewline(style, depth, more + rest);
  }

  lemma ColonBack(style: Style, text: Bytes)
    requires StartsSolid(text)
    ensures Consume(Colon(style) + text, COLON).Some? && SkipWs(Consume(Colon(style) + text, COLON).value) == text
  {
    hide Consume, SkipWs;
    SkipNothing(text);
    if style.Compact? {
      ConsumeNext(text, COLON);
    } else {
      Assoc([COLON], [SPACE], text);
      assert [COLON, SPACE] == [COLON] + [SPACE];
      ConsumeNext([SPACE] + text, COLON);
      SkipSpaces(1, text);
      assert Spaces(1) == [SPACE];
    }
  }

  // ----- the round trip -----

  lemma WordBack(doubles: Doubles, b: bool, rest: Bytes)
    ensures ParseValue(doubles, (if b then TRUE_TEXT else FALSE_TEXT) + rest) == Some((Bool(b), rest))
  {
    hide ParseNumber, ParseMeta, ParseElements, ParseString;
    var word := if b then TRUE_TEXT else FALSE_TEXT;
    var text := word + rest;
    SkipNothing(text);
    Front(word, rest);
    assert text[0] == word[0];
    assert text[0] != NULL_TEXT[0] && (b || text[0] != TRUE_TEXT[0]);
    assert !StartsWith(text, NULL_TEXT) by { NotStarting(text, NULL_TEXT); }
    if !b {
      NotStarting(text, TRUE_TEXT);
    }
  }

  lemma NullBack(doubles: Doubles, rest: Bytes)
    ensures ParseValue(doubles, NULL_TEXT + rest) == Some((NullMeta, rest))
  {
    hide ParseNumber, ParseMeta, ParseElements, ParseString;
    SkipNothing(NULL_TEXT + rest);
    Front(NULL_TEXT, rest);
  }

  lemma NotStarting(text: Bytes, word: Bytes)
    requires text != [] && word != [] && text[0] != word[0]
    ensures !StartsWith(text, word)
  {
    if |text| >= |word| {
      assert text[..|word|][0] == text[0];
    }
  }

  lemma StringParsed(doubles: Doubles, s: Bytes, rest: Bytes)
    ensures ParseValue(doubles, PrintString(s) + rest) == Some((Value.Text(s), rest))
    ensures StartsSolid(PrintString(s))
  {
    hide ParseNumber, ParseMeta, ParseElements, ParseString, PrintString, SkipWs;
    StringBack(s, rest);
    StringBack(s, []);
    assert PrintString(s) + [] == PrintString(s);
    SkipNothing(PrintString(s) + rest);
  }

  lemma {:induction false} ValueBack(doubles: Doubles, style: Style, depth: nat, v: Value, rest: Bytes)
    requires Plain(v) && NumberEnds(rest)
    ensures ParseValue(doubles, PrintValue(doubles, style, depth, v) + rest) == Some((Reread(v), rest))
    ensures StartsSolid(PrintValue(doubles, style, depth, v))
    decreases v, 1
  {
    hide ParseValue, PrintInt, Decimal, PrintString, PrintMeta, PrintElements, Newline;
    match v {
      case I64(i) => IntBack(doubles, i, rest);
      case U64(u) =>
        IntBack(doubles, u, rest);
        IntText(u);
      case Bool(b) => WordBack(doubles, b, rest);
      case Text(s) => StringParsed(doubles, s, rest);
      case NullMeta => NullBack(doubles, rest);
      case Object(m) =>
        MetaBack(doubles, style, depth, m, rest);
        ObjectParsed(doubles, PrintMeta(doubles, style, depth, m) + rest);
      case Array(vs) => ArrayBack(doubles, style, depth, vs, rest);
    }
  }

  lemma IntText(n: nat)
    ensures PrintInt(n) == Decimal(n)
  {
  }

  lemma ObjectParsed(doubles: Doubles, text: Bytes)
    requires text != [] && text[0] == OPEN_BRACE && ParseMeta(doubles, text).Some?
    ensures ParseValue(doubles, text) == Some((Object(ParseMeta(doubles, text).value.0), ParseMeta(doubles, text).value.1))
  {
    hide ParseNumber, ParseMeta, ParseElements, ParseString;
    SkipNothing(text);
  }

  lemma {:induction false} ArrayBack(doubles: Doubles, style: Style, depth: nat, vs: seq<Value>, rest: Bytes)
    requires AllPlain(vs)
    ensures ParseValue(doubles, PrintValue(doubles, style, depth, Array(vs)) + rest) == Some((Array(RereadAll(vs)), rest))
    ensures StartsSolid(PrintValue(doubles, style, depth, Array(vs)))
    decreases vs, 1
  {
    hide ParseElements, PrintElements, Newline, SkipWs;
    if vs == [] {
      assert [OPEN_BRACKET, CLOSE_BRACKET] + rest == [OPEN_BRACKET] + ([CLOSE_BRACKET] + rest);
      SkipNothing([CLOSE_BRACKET] + rest);
      ArrayParsed(doubles, [CLOSE_BRACKET] + rest);
      assert ([CLOSE_BRACKET] + rest)[1..] == rest;
    } else {
      var body := PrintElements(doubles, style, depth, vs);
      ElementsBack(doubles, style, depth, vs, rest);
      Assoc([OPEN_BRACKET], Newline(style, depth + 1) + body, rest);
      Assoc(Newline(style, depth + 1), body, rest);
      SkipNewline(style, depth + 1, body + rest);
      ArrayParsed(doubles, Newline(style, depth + 1) + (body + rest));
    }
  }

  lemma ArrayParsed(doubles: Doubles, inner: Bytes)
    ensures ParseValue(doubles, [OPEN_BRACKET] + inner) == (
      var t := SkipWs(inner);
      if Peek(t) == CLOSE_BRACKET then Some((Array([]), t[1..]))
      else if ParseElements(doubles, t).None? then None
      else Some((Array(ParseElements(doubles, t).value.0), ParseElements(doubles, t).value.1)))
  {
    hide ParseNumber, ParseMeta, ParseElements, ParseString;
    SkipNothing([OPEN_BRACKET] + inner);
    assert ([OPEN_BRACKET] + inner)[1..] == inner;
  }

  lemma {:induction false} ElementsBack(doubles: Doubles, style: Style, depth: nat, vs: seq<Value>, rest: Bytes)
    requires AllPlain(vs) && vs != []
    ensures ParseElements(doubles, PrintElements(doubles, style, depth, vs) + rest) == Some((RereadAll(vs), rest))
    ensures StartsSolid(PrintElements(doubles, style, depth, vs)) && PrintElements(doubles, style, depth, vs)[0] != CLOSE_BRACKET
    decreases vs, 0
  {
    hide ParseValue, PrintValue, Newline, SkipWs, Consume;
    var first := PrintValue(doubles, style, depth + 1, vs[0]);
    if |vs| == 1 {
      var tail := Newline(style, depth) + [CLOSE_BRACKET];
      Closing(style, depth, CLOSE_BRACKET, rest);
      Assoc(first, tail, rest);
      ValueBack(doubles, style, depth + 1, vs[0], tail + rest);
      ValueNotClosing(doubles, first + (tail + rest));
      OneElement(vs);
    } else {
      var more := PrintElements(doubles, style, depth, vs[1..]);
      var tail := [COMMA] + (Newline(style, depth + 1) + more);
      ElementsBack(doubles, style, depth, vs[1..], rest);
      Separator(style, depth + 1, more, rest);
      Assoc(first, tail, rest);
      ValueBack(doubles, style, depth + 1, vs[0], tail + rest);
      ValueNotClosing(doubles, first + (tail + rest));
      ElementsSkip(doubles, Newline(style, depth + 1) + (more + rest), more + rest);
    }
  }

  lemma OneElement(vs: seq<Value>)
    requires |vs| == 1
    ensures RereadAll(vs) == [Reread(vs[0])]
  {
    assert vs[1..] == [];
  }

  lemma OneEntry(es: seq<Entry>)
    requires |es| == 1
    ensures RereadEntries(es) == [Entry(es[0].key, Reread(es[0].value))]
  {
    assert es[1..] == [];
  }

  /** What parses as a value does not start with a closing bracket. */
  lemma ValueNotClosing(doubles: Doubles, text: Bytes)
    requires StartsSolid(text) && ParseValue(doubles, text).Some?
    ensures text[0] != CLOSE_BRACKET
  {
    hide ParseNumber, ParseMeta, ParseElements, ParseString;
    SkipNothing(text);
    if text[0] == CLOSE_BRACKET {
      NotStarting(text, NULL_TEXT);
      NotStarting(text, TRUE_TEXT);
      NotStarting(text, FALSE_TEXT);
      assert false;
    }
  }

  lemma {:induction false} MetaBack(doubles: Doubles, style: Style, depth: nat, m: Meta, rest: Bytes)
    requires PlainMeta(m)
    ensures ParseMeta(doubles, PrintMeta(doubles, style, depth, m) + rest) == Some((RereadMeta(m), rest))
    ensures StartsSolid(PrintMeta(doubles, style, depth, m)) && PrintMeta(doubles, style, depth, m)[0] == OPEN_BRACE
    decreases m, 0
  {
    hide ParseEntries, PrintEntries, Newline, SkipWs, Consume, RereadEntries, PlainEntries, Sorted;
    var es := m.entries;
    if es == [] {
      assert [OPEN_BRACE, CLOSE_BRACE] + rest == [OPEN_BRACE] + ([CLOSE_BRACE] + rest);
      ConsumeNext([CLOSE_BRACE] + rest, OPEN_BRACE);
      SkipNothing([CLOSE_BRACE] + rest);
      assert ([CLOSE_BRACE] + rest)[1..] == rest;
      assert RereadEntries([]) == [] by { NothingReread(); }
    } else {
      var body := PrintEntries(doubles, style, depth, es);
      EntriesBack(doubles, style, depth, [], es, rest);
      Assoc([OPEN_BRACE], Newline(style, depth + 1) + body, rest);
      Assoc(Newline(style, depth + 1), body, rest);
      ConsumeNext(Newline(style, depth + 1) + (body + rest), OPEN_BRACE);
      SkipNewline(style, depth + 1, body + rest);
      assert [] + RereadEntries(es) == RereadEntries(es);
    }
  }

  lemma NothingReread()
    ensures RereadEntries([]) == []
  {
  }

  predicate AllBefore(parsed: seq<Entry>, es: seq<Entry>) {
    forall i, j | 0 <= i < |parsed| && 0 <= j < |es| :: Less(parsed[i].key, es[j].key)
  }

  lemma NextEntry(parsed: seq<Entry>, es: seq<Entry>, v: Value)
    requires es != [] && AllBefore(parsed, es) && Sorted(es)
    ensures !HasKey(parsed, es[0].key) && Insert(parsed, Entry(es[0].key, v)) == parsed + [Entry(es[0].key, v)]
    ensures AllBefore(parsed + [Entry(es[0].key, v)], es[1..]) && Sorted(es[1..])
  {
    InsertLast(parsed, Entry(es[0].key, v));
  }

  lemma MemberBack(doubles: Doubles, style: Style, key: Bytes, value: Bytes, behind: Bytes, v: Value)
    requires StartsSolid(value) && ParseValue(doubles, value + behind) == Some((v, behind))
    ensures ParseMember(doubles, PrintString(key) + (Colon(style) + (value + behind))) == Some((Entry(key, v), behind))
  {
    hide PrintString, ParseString, ParseValue, SkipWs, Consume, Colon;
    StringBack(key, Colon(style) + (value + behind));
    SkipNothing(PrintString(key) + (Colon(style) + (value + behind)));
    ColonBack(style, value + behind);
  }

  /** One entry and what decides how the text goes on. */
  lemma EntryParsed(doubles: Doubles, style: Style, key: Bytes, value: Bytes, behind: Bytes, v: Value, parsed: seq<Entry>)
    requires StartsSolid(value) && ParseValue(doubles, value + behind) == Some((v, behind)) && !HasKey(parsed, key)
    ensures var text := PrintString(key) + (Colon(style) + (value + behind)); var entries := Insert(parsed, Entry(key, v));
      var u := SkipWs(behind);
      ParseEntries(doubles, text, parsed) ==
        if Peek(u) == CLOSE_BRACE then Some((Meta(entries), u[1..]))
        else if Consume(u, COMMA).None? then None
        else ParseEntries(doubles, Consume(u, COMMA).value, entries)
  {
    hide PrintString, ParseMember, ParseValue, SkipWs, Consume, HasKey, Insert, Colon;
    MemberBack(doubles, style, key, value, behind, v);
  }

  lemma {:induction false} EntriesBack(doubles: Doubles, style: Style, depth: nat, parsed: seq<Entry>, es: seq<Entry>, rest: Bytes)
    requires es != [] && AllBefore(parsed, es) && Sorted(es) && PlainEntries(es)
    ensures ParseEntries(doubles, PrintEntries(doubles, style, depth, es) + rest, parsed)
         == Some((Meta(parsed + RereadEntries(es)), rest))
    ensures StartsSolid(PrintEntries(doubles, style, depth, es)) && PrintEntries(doubles, style, depth, es)[0] != CLOSE_BRACE
    decreases es, 0
  {
    hide ParseValue, PrintValue, PrintString, Newline, SkipWs, Consume, ParseEntries, HasKey, Insert, AllBefore, Sorted, Colon;
    var key, v := es[0].key, Reread(es[0].value);
    var value := PrintValue(doubles, style, depth + 1, es[0].value);
    NextEntry(parsed, es, v);
    StringBack(key, []);
    assert PrintString(key) + [] == PrintString(key);
    if |es| == 1 {
      var tail := Newline(style, depth) + [CLOSE_BRACE];
      Closing(style, depth, CLOSE_BRACE, rest);
      ValueBack(doubles, style, depth + 1, es[0].value, tail + rest);
      EntryText(PrintString(key), Colon(style), value, tail, rest);
      EntryParsed(doubles, style, key, value, tail + rest, v, parsed);
      OneEntry(es);
    } else {
      var more := PrintEntries(doubles, style, depth, es[1..]);
      var tail := [COMMA] + (Newline(style, depth + 1) + more);
      var next := parsed + [Entry(key, v)];
      EntriesBack(doubles, style, depth, next, es[1..], rest);
      Separator(style, depth + 1, more, rest);
      ValueBack(doubles, style, depth + 1, es[0].value, tail + rest);
      EntryText(PrintString(key), Colon(style), value, tail, rest);
      EntryParsed(doubles, style, key, value, tail + rest, v, parsed);
      EntriesSkip(doubles, Newline(style, depth + 1) + (more + rest), more + rest, next);
      Assoc(parsed, [Entry(key, v)], RereadEntries(es[1..]));
    }
  }

  lemma EntryText(key: Bytes, colon: Bytes, value: Bytes, tail: Bytes, rest: Bytes)
    ensures (key + (colon + (value + tail))) + rest == key + (colon + (value + (tail + rest)))
  {
    Assoc(key, colon + (value + tail), rest);
    Assoc(colon, value + tail, rest);
    Assoc(value, tail, rest);
  }

  /** In every layout, the text of plain metadata parses to that metadata, non-negative signed integers being read as
      unsigned ones. */
  lemma JsonRoundTrip(doubles: Doubles, style: Style, m: Meta)
    requires PlainMeta(m)
    ensures FromJson(doubles, ToJson(doubles, style, m)) == Some(RereadMeta(m))
  {
    hide ParseMeta, PrintMeta, RereadMeta, PlainMeta;
    MetaBack(doubles, style, 0, m, []);
    assert ToJson(doubles, style, m) + [] == ToJson(doubles, style, m);
  }

  /** What was read back prints the same text, so printing and parsing once more changes nothing. */
  lemma {:induction false} RereadPrintsSame(doubles: Doubles, style: Style, depth: nat, v: Value)
    requires Plain(v)
    ensures PrintValue(doubles, style, depth, Reread(v)) == PrintValue(doubles, style, depth, v)
    decreases v, 0
  {
    hide Decimal, Newline, PrintString;
    match v {
      case Object(m) => if m.entries != [] { RereadEntriesPrintSame(doubles, style, depth, m.entries); }
      case Array(vs) => if vs != [] { RereadElementsPrintSame(doubles, style, depth, vs); }
      case _ =>
    }
  }

  lemma {:induction false} RereadElementsPrintSame(doubles: Doubles, style: Style, depth: nat, vs: seq<Value>)
    requires AllPlain(vs) && vs != []
    ensures PrintElements(doubles, style, depth, RereadAll(vs)) == PrintElements(doubles, style, depth, vs)
    decreases vs, 0
  {
    hide PrintValue, Newline, Reread;
    RereadPrintsSame(doubles, style, depth + 1, vs[0]);
    assert RereadAll(vs)[1..] == RereadAll(vs[1..]);
    if |vs| > 1 {
      RereadElementsPrintSame(doubles, style, depth, vs[1..]);
    }
  }

  lemma {:induction false} RereadEntriesPrintSame(doubles: Doubles, style: Style, depth: nat, es: seq<Entry>)
    requires PlainEntries(es) && es != []
    ensures PrintEntries(doubles, style, depth, RereadEntries(es)) == PrintEntries(doubles, style, depth, es)
    decreases es, 0
  {
    hide PrintValue, Newline, Reread, PrintString, Colon;
    RereadPrintsSame(doubles, style, depth + 1, es[0].value);
    assert RereadEntries(es)[1..] == RereadEntries(es[1..]);
    if |es| > 1 {
      RereadEntriesPrintSame(doubles, style, depth, es[1..]);
    }
  }
}
