/** JSON values and their compact text, as Python's json module writes it
    (RFC 8259, sections 3 to 7).  Numbers are the integers; floats are outside
    this model. */
module JsonText {
  import opened Utf8

  datatype Json =
    | Null
    | Bool(b: bool)
    | Int(i: int)
    | Str(s: Text)
    | Arr(items: seq<Json>)
    | Obj(fields: seq<Field>)

  /** A dict is its entries in insertion order. */
  datatype Field = Field(key: Text, value: Json)

  const QUOTE: Code := 34
  const BACKSLASH: Code := 92
  const COMMA: Code := 44
  const COLON: Code := 58
  const OPEN_ARRAY: Code := 91
  const CLOSE_ARRAY: Code := 93
  const OPEN_OBJECT: Code := 123
  const CLOSE_OBJECT: Code := 125
  const MINUS: Code := 45
  const LOWER_U: Code := 117
  const NULL_TEXT: Text := [110, 117, 108, 108]
  const TRUE_TEXT: Text := [116, 114, 117, 101]
  const FALSE_TEXT: Text := [102, 97, 108, 115, 101]

  // ---------------------------------------------------------------- strings

  function Hex(n: nat): Code
    requires n < 16
  {
    if n < 10 then 48 + n else 87 + n
  }

  function UnicodeEscape(n: nat): (t: Text)
    requires n < 0x1_0000
    ensures |t| == 6
  {
    [BACKSLASH, LOWER_U, Hex(n / 4096), Hex(n / 256 % 16), Hex(n / 16 % 16), Hex(n % 16)]
  }

  function HighHalf(c: Code): (h: Code)
    requires c >= 0x1_0000
    ensures 0xD800 <= h < 0xDC00
  {
    0xD800 + (c - 0x1_0000) / 1024
  }

  function LowHalf(c: Code): (h: Code)
    requires c >= 0x1_0000
    ensures 0xDC00 <= h < 0xE000
  {
    0xDC00 + (c - 0x1_0000) % 1024
  }

  /** `ascii` is json.dumps's ensure_ascii. */
  function Escape(c: Code, ascii: bool): (t: Text)
    ensures 1 <= |t| <= 12
    ensures t[0] != QUOTE
  {
    if c == QUOTE || c == BACKSLASH then [BACKSLASH, c]
    else if c == 10 then [BACKSLASH, 110]
    else if c == 13 then [BACKSLASH, 114]
    else if c == 9 then [BACKSLASH, 116]
    else if c == 8 then [BACKSLASH, 98]
    else if c == 12 then [BACKSLASH, 102]
    else if c < 0x20 || (ascii && 0x7F <= c < 0x1_0000) then UnicodeEscape(c)
    else if ascii && c >= 0x1_0000 then UnicodeEscape(HighHalf(c)) + UnicodeEscape(LowHalf(c))
    else [c]
  }

  function EscapeAll(t: Text, ascii: bool): Text {
    if t == [] then [] else Escape(t[0], ascii) + EscapeAll(t[1..], ascii)
  }

  function Quoted(t: Text, ascii: bool): Text {
    [QUOTE] + EscapeAll(t, ascii) + [QUOTE]
  }

  // ---------------------------------------------------------------- integers

  predicate Digit(c: Code) {
    48 <= c < 58
  }

  function Digits(n: nat): (t: Text)
    ensures |t| >= 1 && (forall c | c in t :: Digit(c))
    ensures n > 0 ==> t[0] != 48
  {
    if n < 10 then [48 + n] else Digits(n / 10) + [48 + n % 10]
  }

  function Decimal(i: int): Text {
    if i < 0 then [MINUS] + Digits(-i) else Digits(i)
  }

  // ---------------------------------------------------------------- values

  function Write(v: Json, ascii: bool): (t: Text)
    decreases v
  {
    match v
    case Null => NULL_TEXT
    case Bool(b) => if b then TRUE_TEXT else FALSE_TEXT
    case Int(i) => Decimal(i)
    case Str(s) => Quoted(s, ascii)
    case Arr(items) => [OPEN_ARRAY] + WriteItems(items, ascii) + [CLOSE_ARRAY]
    case Obj(fields) => [OPEN_OBJECT] + WriteFields(fields, ascii) + [CLOSE_OBJECT]
  }

  function WriteItems(items: seq<Json>, ascii: bool): Text
    decreases items
  {
    if items == [] then []
    else if |items| == 1 then Write(items[0], ascii)
    else Write(items[0], ascii) + [COMMA] + WriteItems(items[1..], ascii)
  }

  function WriteField(f: Field, ascii: bool): Text
    decreases f
  {
    Quoted(f.key, ascii) + [COLON] + Write(f.value, ascii)
  }

  function WriteFields(fields: seq<Field>, ascii: bool): Text
    decreases fields
  {
    if fields == [] then []
    else if |fields| == 1 then WriteField(fields[0], ascii)
    else WriteField(fields[0], ascii) + [COMMA] + WriteFields(fields[1..], ascii)
  }

  // ---------------------------------------------------------------- which values a Python caller can write

  /** Keys of a dict are distinct. */
  predicate DistinctKeys(fields: seq<Field>) {
    forall i, j | 0 <= i < j < |fields| :: fields[i].key != fields[j].key
  }

  predicate Dicts(v: Json)
    decreases v
  {
    match v
    case Arr(items) => forall i | 0 <= i < |items| :: Dicts(items[i])
    case Obj(fields) => DistinctKeys(fields) && forall i | 0 <= i < |fields| :: Dicts(fields[i].value)
    case _ => true
  }

  predicate High(c: Code) {
    0xD800 <= c < 0xDC00
  }

  predicate Low(c: Code) {
    0xDC00 <= c < 0xE000
  }

  /** No lone high surrogate stands right before a lone low one. */
  predicate Unpaired(t: Text) {
    |t| < 2 || (!(High(t[0]) && Low(t[1])) && Unpaired(t[1..]))
  }

  /** Unpaired throughout: what escaping to ASCII can carry. */
  predicate Readable(v: Json)
    decreases v
  {
    match v
    case Str(s) => Unpaired(s)
    case Arr(items) => forall i | 0 <= i < |items| :: Readable(items[i])
    case Obj(fields) => forall i | 0 <= i < |fields| :: Unpaired(fields[i].key) && Readable(fields[i].value)
    case _ => true
  }

  /** No string or key holds a lone surrogate. */
  predicate Scalar(v: Json)
    decreases v
  {
    match v
    case Str(s) => Encodable(s)
    case Arr(items) => forall i | 0 <= i < |items| :: Scalar(items[i])
    case Obj(fields) => forall i | 0 <= i < |fields| :: Encodable(fields[i].key) && Scalar(fields[i].value)
    case _ => true
  }
}
