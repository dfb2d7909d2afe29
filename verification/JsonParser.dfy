/** json.loads with duplicate keys and non-finite constants rejected. */
module JsonParser {
  import opened Options
  import opened Utf8
  import opened JsonText

  datatype Parsed<+T> = Parsed(value: T, rest: Text)

  // ---------------------------------------------------------------- strings

  function HexValue(c: Code): (r: Option<nat>)
    ensures r.Some? ==> r.value < 16
  {
    if Digit(c) then Some(c - 48)
    else if 97 <= c < 103 then Some(c - 87)
    else if 65 <= c < 71 then Some(c - 55)
    else None
  }

  /** Four hexadecimal digits at the start of `s`. */
  function Hex4(s: Text): (r: Option<nat>)
    ensures r.Some? ==> |s| >= 4 && r.value < 0x1_0000
  {
    if |s| < 4 then None
    else
      var a, b, c, d := HexValue(s[0]), HexValue(s[1]), HexValue(s[2]), HexValue(s[3]);
      if a.None? || b.None? || c.None? || d.None? then None
      else Some(((a.value * 16 + b.value) * 16 + c.value) * 16 + d.value)
  }

  /** The character after `\u`, joining an escaped surrogate pair. */
  function UnicodeChar(s: Text): (r: Option<Parsed<Code>>)
    ensures r.Some? ==> |r.value.rest| < |s|
  {
    match Hex4(s)
    case None => None
    case Some(first) =>
      if 0xD800 <= first < 0xDC00 && |s| >= 6 && s[4] == BACKSLASH && s[5] == LOWER_U then
        match Hex4(s[6..])
        case None => None
        case Some(second) =>
          if 0xDC00 <= second < 0xE000 then
            Some(Parsed(0x1_0000 + (first - 0xD800) * 1024 + (second - 0xDC00), s[10..]))
          else Some(Parsed(first, s[4..]))
      else Some(Parsed(first, s[4..]))
  }

  /** One character of a string literal; the closing quote is the caller's. */
  function Char(s: Text): (r: Option<Parsed<Code>>)
    requires s != []
    ensures r.Some? ==> |r.value.rest| < |s|
  {
    if s[0] == BACKSLASH then
      if |s| < 2 then None
      else if s[1] == QUOTE || s[1] == BACKSLASH || s[1] == 47 then Some(Parsed(s[1], s[2..]))
      else if s[1] == 110 then Some(Parsed(10, s[2..]))
      else if s[1] == 114 then Some(Parsed(13, s[2..]))
      else if s[1] == 116 then Some(Parsed(9, s[2..]))
      else if s[1] == 98 then Some(Parsed(8, s[2..]))
      else if s[1] == 102 then Some(Parsed(12, s[2..]))
      else if s[1] == LOWER_U then UnicodeChar(s[2..])
      else None
    else if s[0] < 0x20 then None
    else Some(Parsed(s[0], s[1..]))
  }

  /** The rest of a string literal after its opening quote. */
  function Chars(s: Text): (r: Option<Parsed<Text>>)
    ensures r.Some? ==> |r.value.rest| < |s|
    decreases |s|
  {
    if s == [] then None
    else if s[0] == QUOTE then Some(Parsed([], s[1..]))
    else
      match Char(s)
      case None => None
      case Some(first) =>
        match Chars(first.rest)
        case None => None
        case Some(more) => Some(Parsed([first.value] + more.value, more.rest))
  }

  // ---------------------------------------------------------------- integers

  function Run(s: Text): (n: nat)
    ensures n <= |s|
    ensures forall i | 0 <= i < n :: Digit(s[i])
    ensures n < |s| ==> !Digit(s[n])
  {
    if s == [] || !Digit(s[0]) then 0 else 1 + Run(s[1..])
  }

  function Figure(c: Code): nat
    requires Digit(c)
  {
    c - 48
  }

  function ValueOf(s: Text): nat
    requires forall c | c in s :: Digit(c)
  {
    if s == [] then 0 else ValueOf(s[..|s| - 1]) * 10 + Figure(s[|s| - 1])
  }

  /** A fraction or an exponent makes the number a float. */
  predicate Float(rest: Text) {
    rest != [] && (rest[0] == 46 || rest[0] == 69 || rest[0] == 101)
  }

  function Magnitude(s: Text): (r: Option<Parsed<nat>>)
    ensures r.Some? ==> |r.value.rest| < |s|
  {
    var n := Run(s);
    if n == 0 then None
    else if s[0] == 48 then Some(Parsed(0, s[1..]))
    else Some(Parsed(ValueOf(s[..n]), s[n..]))
  }

  function Number(s: Text): (r: Option<Parsed<Json>>)
    ensures r.Some? ==> |r.value.rest| < |s|
  {
    var negative := s != [] && s[0] == MINUS;
    match Magnitude(if negative then s[1..] else s)
    case None => None
    case Some(m) =>
      if Float(m.rest) then None
      else Some(Parsed(Int(if negative then 0 - m.value else m.value), m.rest))
  }

  // ---------------------------------------------------------------- values

  predicate White(c: Code) {
    c == 32 || c == 9 || c == 10 || c == 13
  }

  function Skip(s: Text): (r: Text)
    ensures |r| <= |s|
    ensures r != [] ==> !White(r[0])
  {
    if s != [] && White(s[0]) then Skip(s[1..]) else s
  }

  predicate Starts(s: Text, c: Code) {
    s != [] && s[0] == c
  }

  function Word(s: Text, word: Text, v: Json): (r: Option<Parsed<Json>>)
    requires word != []
    ensures r.Some? ==> |r.value.rest| < |s|
  {
    if word <= s then Some(Parsed(v, s[|word|..])) else None
  }

  function Value(s: Text): (r: Option<Parsed<Json>>)
    ensures r.Some? ==> |r.value.rest| < |s|
    decreases |s|, 2
  {
    if Starts(s, QUOTE) then
      match Chars(s[1..])
      case None => None
      case Some(t) => Some(Parsed(Str(t.value), t.rest))
    else if Starts(s, OPEN_OBJECT) then
      var inside := Skip(s[1..]);
      if Starts(inside, CLOSE_OBJECT) then Some(Parsed(Obj([]), inside[1..]))
      else
        match Members(inside)
        case None => None
        case Some(m) => if DistinctKeys(m.value) then Some(Parsed(Obj(m.value), m.rest)) else None
    else if Starts(s, OPEN_ARRAY) then
      var inside := Skip(s[1..]);
      if Starts(inside, CLOSE_ARRAY) then Some(Parsed(Arr([]), inside[1..]))
      else
        match Items(inside)
        case None => None
        case Some(m) => Some(Parsed(Arr(m.value), m.rest))
    else if Starts(s, NULL_TEXT[0]) then Word(s, NULL_TEXT, Null)
    else if Starts(s, TRUE_TEXT[0]) then Word(s, TRUE_TEXT, Bool(true))
    else if Starts(s, FALSE_TEXT[0]) then Word(s, FALSE_TEXT, Bool(false))
    else Number(s)
  }

  /** Array items up to and including the closing bracket. */
  function Items(s: Text): (r: Option<Parsed<seq<Json>>>)
    ensures r.Some? ==> |r.value.rest| < |s|
    decreases |s|, 3
  {
    match Value(s)
    case None => None
    case Some(first) =>
      var after := Skip(first.rest);
      if Starts(after, CLOSE_ARRAY) then Some(Parsed([first.value], after[1..]))
      else if Starts(after, COMMA) then
        match Items(Skip(after[1..]))
        case None => None
        case Some(more) => Some(Parsed([first.value] + more.value, more.rest))
      else None
  }

  function Member(s: Text): (r: Option<Parsed<Field>>)
    ensures r.Some? ==> |r.value.rest| < |s|
    decreases |s|, 3
  {
    if !Starts(s, QUOTE) then None
    else
      match Chars(s[1..])
      case None => None
      case Some(key) =>
        var after := Skip(key.rest);
        if !Starts(after, COLON) then None
        else
          match Value(Skip(after[1..]))
          case None => None
          case Some(v) => Some(Parsed(Field(key.value, v.value), v.rest))
  }

  /** Object members up to and including the closing brace. */
  function Members(s: Text): (r: Option<Parsed<seq<Field>>>)
    ensures r.Some? ==> |r.value.rest| < |s|
    decreases |s|, 4
  {
    match Member(s)
    case None => None
    case Some(first) =>
      var after := Skip(first.rest);
      if Starts(after, CLOSE_OBJECT) then Some(Parsed([first.value], after[1..]))
      else if Starts(after, COMMA) then
        match Members(Skip(after[1..]))
        case None => None
        case Some(more) => Some(Parsed([first.value] + more.value, more.rest))
      else None
  }

  function Parse(s: Text): Option<Json> {
    match Value(Skip(s))
    case None => None
    case Some(v) => if Skip(v.rest) == [] then Some(v.value) else None
  }

  /** Duplicate keys are refused at every depth: what parses is made of dicts. */
  lemma {:induction false} ValueIsDict(s: Text)
    requires Value(s).Some?
    ensures Dicts(Value(s).value.value)
    decreases |s|, 2
  {
    if Starts(s, OPEN_OBJECT) {
      var inside := Skip(s[1..]);
      if !Starts(inside, CLOSE_OBJECT) {
        MembersAreDicts(inside);
      }
    } else if Starts(s, OPEN_ARRAY) {
      var inside := Skip(s[1..]);
      if !Starts(inside, CLOSE_ARRAY) {
        ItemsAreDicts(inside);
      }
    }
  }

  lemma {:induction false} ItemsAreDicts(s: Text)
    requires Items(s).Some?
    ensures forall v | v in Items(s).value.value :: Dicts(v)
    decreases |s|, 3
  {
    ValueIsDict(s);
    var after := Skip(Value(s).value.rest);
    if Starts(after, COMMA) {
      ItemsAreDicts(Skip(after[1..]));
    }
  }

  lemma {:induction false} MembersAreDicts(s: Text)
    requires Members(s).Some?
    ensures forall f | f in Members(s).value.value :: Dicts(f.value)
    decreases |s|, 3
  {
    var first := Member(s).value;
    ValueIsDict(Skip(Skip(Chars(s[1..]).value.rest)[1..]));
    var after := Skip(first.rest);
    if Starts(after, COMMA) {
      MembersAreDicts(Skip(after[1..]));
    }
  }

  lemma ParseGivesDicts(s: Text)
    requires Parse(s).Some?
    ensures Dicts(Parse(s).value)
  {
    ValueIsDict(Skip(s));
  }
}
