/**
 The texts of RFC 8259: whitespace (section 2), objects and arrays (sections 4 and 5),
 numbers (section 6) and strings with their escapes (section 7), as bytes.
 A value of these datatypes is one way of writing a JSON value, every space included.
 */
module Json {
  type Byte = b: int | 0 <= b < 256

  const OPEN: Byte := 0x7B
  const CLOSE: Byte := 0x7D
  const QUOTE: Byte := 0x22
  const BACKSLASH: Byte := 0x5C

  type Space = b: Byte | b == 0x20 || b == 0x09 || b == 0x0A || b == 0x0D witness 0x20
  type Digit = b: Byte | 0x30 <= b <= 0x39 witness 0x30
  type NonzeroDigit = b: Digit | b != 0x30 witness 0x31
  type HexDigit = b: Byte | 0x30 <= b <= 0x39 || 0x41 <= b <= 0x46 || 0x61 <= b <= 0x66 witness 0x30
  /** The character after a backslash in a two-character escape: one of `" \ / b f n r t`. */
  type EscapeLetter = b: Byte |
    b == 0x22 || b == 0x5C || b == 0x2F || b == 0x62 || b == 0x66 || b == 0x6E || b == 0x72 || b == 0x74
    witness 0x6E
  /** A byte of an unescaped character: no control, quotation mark or backslash. */
  type Unescaped = b: Byte | b >= 0x20 && b != 0x22 && b != 0x5C witness 0x20

  datatype Char =
    | Plain(b: Unescaped)
    | Escape(letter: EscapeLetter)
    | UnicodeEscape(h1: HexDigit, h2: HexDigit, h3: HexDigit, h4: HexDigit)

  datatype Whole = Zero | Positive(first: NonzeroDigit, rest: seq<Digit>)
  datatype Fraction = NoFraction | Fraction(first: Digit, rest: seq<Digit>)
  datatype Sign = NoSign | Plus | Minus
  datatype Exponent = NoExponent | Exponent(upper: bool, sign: Sign, first: Digit, rest: seq<Digit>)

  datatype Value =
    | Null
    | True
    | False
    | Number(minus: bool, whole: Whole, fraction: Fraction, exponent: Exponent)
    | String(chars: seq<Char>)
    | Array(pad: seq<Space>, items: Items)
    | Object(body: ObjectText)

  datatype Items =
    | NoItems
    | LastItem(value: Value, after: seq<Space>)
    | Item(value: Value, after: seq<Space>, before: seq<Space>, rest: Items)

  datatype ObjectText = ObjectText(pad: seq<Space>, members: Members)

  datatype Members =
    | NoMembers
    | LastMember(name: seq<Char>, s1: seq<Space>, s2: seq<Space>, value: Value, after: seq<Space>)
    | Member(name: seq<Char>, s1: seq<Space>, s2: seq<Space>, value: Value, after: seq<Space>, before: seq<Space>,
        rest: Members)

  // ----- printing -----

  const COMMA: Byte := 0x2C
  const COLON: Byte := 0x3A
  const DOT: Byte := 0x2E
  const ARRAY_OPEN: Byte := 0x5B
  const ARRAY_CLOSE: Byte := 0x5D

  /** Bytes of a narrower kind, as bytes. */
  function Bytes(s: seq<Byte>): seq<Byte> {
    s
  }

  function PrintChar(c: Char): seq<Byte> {
    match c
    case Plain(b) => [b]
    case Escape(letter) => [BACKSLASH, letter]
    case UnicodeEscape(h1, h2, h3, h4) => [BACKSLASH, 0x75, h1, h2, h3, h4]
  }

  function PrintChars(cs: seq<Char>): seq<Byte> {
    if cs == [] then [] else PrintChar(cs[0]) + PrintChars(cs[1..])
  }

  function PrintString(cs: seq<Char>): seq<Byte> {
    [QUOTE] + PrintChars(cs) + [QUOTE]
  }

  function PrintWhole(w: Whole): seq<Byte> {
    match w
    case Zero => [0x30]
    case Positive(first, rest) => Bytes([first]) + rest
  }

  function PrintFraction(f: Fraction): seq<Byte> {
    match f
    case NoFraction => []
    case Fraction(first, rest) => Bytes([DOT, first]) + rest
  }

  function PrintSign(s: Sign): seq<Byte> {
    match s
    case NoSign => []
    case Plus => [0x2B]
    case Minus => [0x2D]
  }

  function PrintExponent(e: Exponent): seq<Byte> {
    match e
    case NoExponent => []
    case Exponent(upper, sign, first, rest) =>
      Bytes([if upper then 0x45 else 0x65]) + PrintSign(sign) + Bytes([first]) + rest
  }

  function PrintValue(v: Value): seq<Byte> {
    match v
    case Null => [0x6E, 0x75, 0x6C, 0x6C]
    case True => [0x74, 0x72, 0x75, 0x65]
    case False => [0x66, 0x61, 0x6C, 0x73, 0x65]
    case Number(minus, whole, fraction, exponent) =>
      PrintSign(if minus then Minus else NoSign) + PrintWhole(whole) + PrintFraction(fraction) + PrintExponent(exponent)
    case String(chars) => PrintString(chars)
    case Array(pad, items) => [ARRAY_OPEN] + (Bytes(pad) + PrintItems(items)) + [ARRAY_CLOSE]
    case Object(body) => PrintObject(body)
  }

  function PrintItems(items: Items): seq<Byte> {
    match items
    case NoItems => []
    case LastItem(value, after) => PrintValue(value) + after
    case Item(value, after, before, rest) => PrintValue(value) + after + [COMMA] + before + PrintItems(rest)
  }

  function PrintObject(o: ObjectText): seq<Byte> {
    [OPEN] + (Bytes(o.pad) + PrintMembers(o.members)) + [CLOSE]
  }

  function PrintMembers(members: Members): seq<Byte> {
    match members
    case NoMembers => []
    case LastMember(name, s1, s2, value, after) => PrintString(name) + s1 + [COLON] + s2 + PrintValue(value) + after
    case Member(name, s1, s2, value, after, before, rest) =>
      PrintString(name) + s1 + [COLON] + s2 + PrintValue(value) + after + [COMMA] + before + PrintMembers(rest)
  }
}
