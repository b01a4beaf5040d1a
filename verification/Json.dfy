/** The JSON text of metadata: the compact and the indented printer, and the parser, which follows the string grammar of
    section 7 of RFC 8259 with \u escapes up to 00ff. Text is bytes. How doubles are printed and read is a parameter. */
module Json {
  import opened Numbers
  import opened Outcomes
  import opened MetaCodec

  const QUOTE: byte := 34
  const BACKSLASH: byte := 92
  const COMMA: byte := 44
  const COLON: byte := 58
  const OPEN_BRACE: byte := 123
  const CLOSE_BRACE: byte := 125
  const OPEN_BRACKET: byte := 91
  const CLOSE_BRACKET: byte := 93
  const MINUS: byte := 45
  const PLUS: byte := 43
  const DOT: byte := 46
  const SPACE: byte := 32
  const NEWLINE: byte := 10
  const ZERO: byte := 48

  const TRUE_TEXT: Bytes := [116, 114, 117, 101]
  const FALSE_TEXT: Bytes := [102, 97, 108, 115, 101]
  const NULL_TEXT: Bytes := [110, 117, 108, 108]

  /** How text is laid out, and how doubles are converted. */
  datatype Style = Compact | Pretty(indent: nat)

  datatype Doubles = Doubles(show: u64 -> Bytes, read: Bytes -> Option<u64>)

  // ----- printing -----

  function Spaces(n: nat): Bytes {
    seq(n, i => SPACE)
  }

  function Newline(style: Style, depth: nat): Bytes {
    match style
    case Compact => []
    case Pretty(indent) => [NEWLINE] + (if indent > 0 && depth > 0 then Spaces(indent * depth) else [])
  }

  function Colon(style: Style): Bytes {
    if style.Compact? then [COLON] else [COLON, SPACE]
  }

  function Decimal(n: nat): (r: Bytes)
    ensures r != []
  {
    if n < 10 then [ZERO + n] else Decimal(n / 10) + [ZERO + n % 10]
  }

  function HexDigit(d: nat): byte
    requires d < 16
  {
    if d < 10 then ZERO + d else 97 + (d - 10)
  }

  function EscapedChar(c: byte): (r: Bytes)
    ensures r != []
  {
    if c == QUOTE then [BACKSLASH, QUOTE]
    else if c == BACKSLASH then [BACKSLASH, BACKSLASH]
    else if c == 8 then [BACKSLASH, 98]
    else if c == 12 then [BACKSLASH, 102]
    else if c == 10 then [BACKSLASH, 110]
    else if c == 13 then [BACKSLASH, 114]
    else if c == 9 then [BACKSLASH, 116]
    else if c < 0x20 then [BACKSLASH, 117, ZERO, ZERO, HexDigit(c / 16), HexDigit(c % 16)]
    else [c]
  }

  function Escaped(s: Bytes): Bytes {
    if s == [] then [] else EscapedChar(s[0]) + Escaped(s[1..])
  }

  function PrintString(s: Bytes): Bytes {
    [QUOTE] + (Escaped(s) + [QUOTE])
  }

  function PrintInt(i: int): Bytes {
    if i < 0 then [MINUS] + Decimal(-i) else Decimal(i)
  }

  function PrintValue(doubles: Doubles, style: Style, depth: nat, v: Value): Bytes
    decreases v, 1
  {
    match v
    case I64(i) => PrintInt(i)
    case U64(u) => Decimal(u)
    case Bool(b) => if b then TRUE_TEXT else FALSE_TEXT
    case Double(bits) => doubles.show(bits)
    case Text(s) => PrintString(s)
    case NullMeta => NULL_TEXT
    case Object(m) => PrintMeta(doubles, style, depth, m)
    case Array(vs) =>
      if vs == [] then [OPEN_BRACKET, CLOSE_BRACKET]
      else [OPEN_BRACKET] + (Newline(style, depth + 1) + PrintElements(doubles, style, depth, vs))
  }

  /** The elements, what stands between them, and the closing bracket. */
  function PrintElements(doubles: Doubles, style: Style, depth: nat, vs: seq<Value>): Bytes
    requires vs != []
    decreases vs, 0
  {
    PrintValue(doubles, style, depth + 1, vs[0]) +
      (if |vs| == 1 then Newline(style, depth) + [CLOSE_BRACKET]
       else [COMMA] + (Newline(style, depth + 1) + PrintElements(doubles, style, depth, vs[1..])))
  }

  function PrintMeta(doubles: Doubles, style: Style, depth: nat, m: Meta): Bytes
    decreases m, 0
  {
    if m.entries == [] then [OPEN_BRACE, CLOSE_BRACE]
    else [OPEN_BRACE] + (Newline(style, depth + 1) + PrintEntries(doubles, style, depth, m.entries))
  }

  /** The entries, what stands between them, and the closing brace. */
  function PrintEntries(doubles: Doubles, style: Style, depth: nat, es: seq<Entry>): Bytes
    requires es != []
    decreases es, 0
  {
    PrintString(es[0].key) + (Colon(style) + (PrintValue(doubles, style, depth + 1, es[0].value) +
      (if |es| == 1 then Newline(style, depth) + [CLOSE_BRACE]
       else [COMMA] + (Newline(style, depth + 1) + PrintEntries(doubles, style, depth, es[1..])))))
  }

  // ----- parsing -----

  predicate IsSpace(c: byte) {
    c == SPACE || 9 <= c <= 13
  }

  predicate IsDigit(c: byte) {
    48 <= c <= 57
  }

  predicate IsHex(c: byte) {
    IsDigit(c) || 65 <= c <= 70 || 97 <= c <= 102
  }

  function HexValue(c: byte): (r: nat)
    requires IsHex(c)
    ensures r < 16
  {
    if c <= 57 then c - 48 else if c <= 70 then c - 65 + 10 else c - 97 + 10
  }

  /** The next character, or 0 at the end. */
  function Peek(text: Bytes): byte {
    if text == [] then 0 else text[0]
  }

  function SkipWs(text: Bytes): (r: Bytes)
    ensures |r| <= |text|
    ensures r == [] || !IsSpace(r[0])
  {
    if text != [] && IsSpace(text[0]) then SkipWs(text[1..]) else text
  }

  function Consume(text: Bytes, c: byte): (r: Option<Bytes>)
    requires c != 0
    ensures r.Some? ==> |r.value| < |text|
  {
    var t := SkipWs(text);
    if Peek(t) != c then None else Some(t[1..])
  }

  function Unescaped(e: byte): Option<byte> {
    if e == QUOTE then Some(QUOTE)
    else if e == BACKSLASH then Some(BACKSLASH)
    else if e == 47 then Some(47)
    else if e == 98 then Some(8)
    else if e == 102 then Some(12)
    else if e == 110 then Some(10)
    else if e == 114 then Some(13)
    else if e == 116 then Some(9)
    else None
  }

  /** Four hexadecimal digits; only code points below 256 are accepted. */
  function ParseHex(text: Bytes): (r: Option<(byte, Bytes)>)
    ensures r.Some? ==> |r.value.1| < |text|
  {
    if |text| < 4 || !(IsHex(text[0]) && IsHex(text[1]) && IsHex(text[2]) && IsHex(text[3])) then None
    else
      var cp := ((HexValue(text[0]) * 16 + HexValue(text[1])) * 16 + HexValue(text[2])) * 16 + HexValue(text[3]);
      if cp < 256 then Some((cp, text[4..])) else None
  }

  /** One character of a string, escaped or not. */
  function ParseChar(text: Bytes): (r: Option<(byte, Bytes)>)
    requires text != [] && text[0] != QUOTE
    ensures r.Some? ==> |r.value.1| < |text|
  {
    if text[0] != BACKSLASH then Some((text[0], text[1..]))
    else if |text| < 2 then None
    else if text[1] == 117 then ParseHex(text[2..])
    else
      match Unescaped(text[1])
      case None => None
      case Some(c) => Some((c, text[2..]))
  }

  /** The characters up to the closing quote. */
  function ParseChars(text: Bytes): (r: Option<(Bytes, Bytes)>)
    ensures r.Some? ==> |r.value.1| < |text|
    decreases |text|
  {
    if text == [] then None
    else if text[0] == QUOTE then Some(([], text[1..]))
    else
      match ParseChar(text)
      case None => None
      case Some((c, rest)) =>
        match ParseChars(rest)
        case None => None
        case Some((cs, behind)) => Some(([c] + cs, behind))
  }

  function ParseString(text: Bytes): (r: Option<(Bytes, Bytes)>)
    ensures r.Some? ==> |r.value.1| < |text|
  {
    match Consume(text, QUOTE)
    case None => None
    case Some(t) => ParseChars(t)
  }

  /** How many digits the text starts with. */
  function DigitCount(text: Bytes): (n: nat)
    ensures n <= |text|
    ensures forall i | 0 <= i < n :: IsDigit(text[i])
    ensures n < |text| ==> !IsDigit(text[n])
  {
    if text != [] && IsDigit(text[0]) then 1 + DigitCount(text[1..]) else 0
  }

  /** The number a string of digits writes; leading zeros are allowed. */
  function DigitsValue(ds: Bytes): nat
    requires forall i | 0 <= i < |ds| :: IsDigit(ds[i])
  {
    if ds == [] then 0
    else
      assert IsDigit(ds[|ds| - 1]);
      10 * DigitsValue(ds[..|ds| - 1]) + (ds[|ds| - 1] as int - 48)
  }

  function FractionLength(text: Bytes): (n: nat)
    ensures n <= |text|
  {
    if text != [] && text[0] == DOT then 1 + DigitCount(text[1..]) else 0
  }

  function ExponentLength(text: Bytes): (n: nat)
    ensures n <= |text|
  {
    if text == [] || !(text[0] == 101 || text[0] == 69) then 0
    else
      var sign := if |text| > 1 && (text[1] == PLUS || text[1] == MINUS) then 2 else 1;
      sign + DigitCount(text[sign..])
  }

  /** The length of the fraction and exponent at the front of the text. */
  function FloatTail(text: Bytes): (n: nat)
    ensures n <= |text|
  {
    FractionLength(text) + ExponentLength(text[FractionLength(text)..])
  }

  predicate AllDigits(ds: Bytes) {
    forall i | 0 <= i < |ds| :: IsDigit(ds[i])
  }

  /** The value of a number's text: a double, or an integer that must fit its width. */
  function Converted(doubles: Doubles, num: Bytes, isFloat: bool): Option<Value>
    requires num != []
  {
    if isFloat then
      match doubles.read(num)
      case None => None
      case Some(bits) => Some(Double(bits))
    else if num[0] == MINUS then
      var digits := num[1..];
      if digits == [] || !AllDigits(digits) || DigitsValue(digits) > TWO_63 then None
      else Some(I64(-(DigitsValue(digits) as int)))
    else if !AllDigits(num) || DigitsValue(num) >= TWO_64 then None
    else Some(U64(DigitsValue(num)))
  }

  /** The length of the number at the front of the text, and of its part before a fraction or exponent. */
  function WholeLength(text: Bytes): (n: nat)
    ensures n <= |text|
  {
    if Peek(text) == MINUS then 1 + DigitCount(text[1..]) else DigitCount(text)
  }

  function ParseNumber(doubles: Doubles, text: Bytes): (r: Option<(Value, Bytes)>)
    ensures r.Some? ==> |r.value.1| < |text|
  {
    var whole := WholeLength(text);
    var tail := FloatTail(text[whole..]);
    if whole + tail == 0 then None
    else
      match Converted(doubles, text[..whole + tail], tail > 0)
      case None => None
      case Some(v) => Some((v, text[whole + tail..]))
  }

  predicate StartsWith(text: Bytes, word: Bytes) {
    |text| >= |word| && text[..|word|] == word
  }

  function ParseValue(doubles: Doubles, text: Bytes): (r: Option<(Value, Bytes)>)
    ensures r.Some? ==> |r.value.1| < |text|
    decreases |text|, 2
  {
    var t := SkipWs(text);
    var c := Peek(t);
    if c == QUOTE then
      match ParseString(t)
      case None => None
      case Some((s, rest)) => Some((Value.Text(s), rest))
    else if c == OPEN_BRACE then
      match ParseMeta(doubles, t)
      case None => None
      case Some((m, rest)) => Some((Object(m), rest))
    else if c == OPEN_BRACKET then
      var inner := SkipWs(t[1..]);
      if Peek(inner) == CLOSE_BRACKET then Some((Array([]), inner[1..]))
      else
        match ParseElements(doubles, inner)
        case None => None
        case Some((vs, rest)) => Some((Array(vs), rest))
    else if StartsWith(t, NULL_TEXT) then Some((NullMeta, t[4..]))
    else if StartsWith(t, TRUE_TEXT) then Some((Bool(true), t[4..]))
    else if StartsWith(t, FALSE_TEXT) then Some((Bool(false), t[5..]))
    else if c == MINUS || IsDigit(c) then ParseNumber(doubles, t)
    else None
  }

  /** The elements of an array after its opening bracket. */
  function ParseElements(doubles: Doubles, text: Bytes): (r: Option<(seq<Value>, Bytes)>)
    ensures r.Some? ==> |r.value.1| < |text|
    decreases |text|, 3
  {
    match ParseValue(doubles, text)
    case None => None
    case Some((v, behind)) =>
      var t := SkipWs(behind);
      if Peek(t) == CLOSE_BRACKET then Some(([v], t[1..]))
      else
        match Consume(t, COMMA)
        case None => None
        case Some(next) =>
          match ParseElements(doubles, next)
          case None => None
          case Some((vs, rest)) => Some(([v] + vs, rest))
  }

  function ParseMeta(doubles: Doubles, text: Bytes): (r: Option<(Meta, Bytes)>)
    ensures r.Some? ==> |r.value.1| < |text|
    decreases |text|, 1
  {
    match Consume(text, OPEN_BRACE)
    case None => None
    case Some(inner) =>
      var t := SkipWs(inner);
      if Peek(t) == CLOSE_BRACE then Some((Meta([]), t[1..])) else ParseEntries(doubles, t, [])
  }

  /** A key, a colon and a value. */
  function ParseMember(doubles: Doubles, text: Bytes): (r: Option<(Entry, Bytes)>)
    ensures r.Some? ==> |r.value.1| < |text|
    decreases |text|, 3
  {
    var t := SkipWs(text);
    if Peek(t) != QUOTE then None
    else
      match ParseString(t)
      case None => None
      case Some((key, behindKey)) =>
        match Consume(behindKey, COLON)
        case None => None
        case Some(inner) =>
          match ParseValue(doubles, SkipWs(inner))
          case None => None
          case Some((v, behind)) => Some((Entry(key, v), behind))
  }

  /** The entries of an object; a repeated key is refused. */
  function ParseEntries(doubles: Doubles, text: Bytes, parsed: seq<Entry>): (r: Option<(Meta, Bytes)>)
    ensures r.Some? ==> |r.value.1| < |text|
    decreases |text|, 4
  {
    match ParseMember(doubles, text)
    case None => None
    case Some((e, behind)) =>
      if HasKey(parsed, e.key) then None
      else
        var entries := Insert(parsed, e);
        var u := SkipWs(behind);
        if Peek(u) == CLOSE_BRACE then Some((Meta(entries), u[1..]))
        else
          match Consume(u, COMMA)
          case None => None
          case Some(next) => ParseEntries(doubles, next, entries)
  }

  /** Printing and parsing as the callers see them; what follows the object is ignored. */
  function ToJson(doubles: Doubles, style: Style, m: Meta): Bytes {
    PrintMeta(doubles, style, 0, m)
  }

  function FromJson(doubles: Doubles, text: Bytes): Option<Meta> {
    match ParseMeta(doubles, text)
    case None => None
    case Some((m, _)) => Some(m)
  }
}
