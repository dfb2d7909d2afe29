/** Parsing undoes writing.  Every lemma has the shape: the written form followed
    by `rest` parses to the value and leaves `rest`. */
module JsonRoundTrip {
  import opened Options
  import opened Utf8
  import opened JsonText
  import opened JsonParser

  // ---------------------------------------------------------------- strings

  lemma HexReads(n: nat)
    requires n < 0x1_0000
    ensures Hex4(UnicodeEscape(n)[2..]) == Some(n)
  {
    assert n / 256 == n / 16 / 16 && n / 4096 == n / 256 / 16;
    assert n / 4096 * 16 + n / 256 % 16 == n / 256;
    assert n / 256 * 16 + n / 16 % 16 == n / 16;
  }

  lemma Hex4Local(s: Text, rest: Text)
    requires |s| >= 4
    ensures Hex4(s + rest) == Hex4(s)
  {
  }

  lemma EscapeReads(n: nat, rest: Text)
    requires n < 0x1_0000
    ensures Hex4((UnicodeEscape(n) + rest)[2..]) == Some(n)
    ensures (UnicodeEscape(n) + rest)[2..][4..] == rest
    ensures var s := UnicodeEscape(n) + rest; s[0] == BACKSLASH && s[1] == LOWER_U
  {
    HexReads(n);
    Hex4Local(UnicodeEscape(n)[2..], rest);
    assert (UnicodeEscape(n) + rest)[2..] == UnicodeEscape(n)[2..] + rest;
  }

  lemma HalvesJoin(c: Code)
    requires c >= 0x1_0000
    ensures 0x1_0000 + (HighHalf(c) - 0xD800) * 1024 + (LowHalf(c) - 0xDC00) == c
  {
  }

  lemma Drops(s: Text, tail: Text, rest: Text)
    requires |s| >= 10 && |tail| >= 6 && s[4..] == tail && tail[2..][4..] == rest
    ensures s[4] == tail[0] && s[5] == tail[1] && s[6..] == tail[2..] && s[10..] == rest
  {
    assert s[6..] == s[4..][2..] && s[10..] == s[4..][2..][4..];
  }

  lemma PairReads(c: Code, rest: Text)
    requires c >= 0x1_0000
    ensures UnicodeChar((UnicodeEscape(HighHalf(c)) + UnicodeEscape(LowHalf(c)) + rest)[2..]) == Some(Parsed(c, rest))
  {
    hide UnicodeEscape, Hex4, HighHalf, LowHalf;
    var high, tail := UnicodeEscape(HighHalf(c)), UnicodeEscape(LowHalf(c)) + rest;
    assert high + UnicodeEscape(LowHalf(c)) + rest == high + tail;
    EscapeReads(HighHalf(c), tail);
    EscapeReads(LowHalf(c), rest);
    Drops((high + tail)[2..], tail, rest);
    HalvesJoin(c);
  }

  /** What may come after an escaped high surrogate without being joined to it. */
  predicate Follows(tail: Text) {
    |tail| >= 2 && tail[0] == BACKSLASH && tail[1] == LOWER_U ==>
      Hex4(tail[2..]).Some? && !(0xDC00 <= Hex4(tail[2..]).value < 0xE000)
  }

  lemma CharReads(c: Code, ascii: bool, rest: Text)
    requires ascii && High(c) ==> Follows(rest)
    ensures Char(Escape(c, ascii) + rest) == Some(Parsed(c, rest))
  {
    var e := Escape(c, ascii);
    if c < 0x1_0000 && e == UnicodeEscape(c) {
      UnitReads(c, rest);
    } else if c >= 0x1_0000 && ascii {
      PairReads(c, rest);
    } else {
      assert (e + rest)[|e|..] == rest;
    }
  }

  lemma UnitReads(c: Code, rest: Text)
    requires c < 0x1_0000 && (High(c) ==> Follows(rest))
    ensures UnicodeChar((UnicodeEscape(c) + rest)[2..]) == Some(Parsed(c, rest))
    ensures Char(UnicodeEscape(c) + rest) == Some(Parsed(c, rest))
  {
    hide UnicodeEscape, Hex4;
    EscapeReads(c, rest);
    var s := (UnicodeEscape(c) + rest)[2..];
    if |rest| >= 2 {
      assert s[4] == rest[0] && s[5] == rest[1] && s[6..] == rest[2..];
    }
  }

  lemma EscapeFollows(c: Code, tail: Text)
    requires !Low(c)
    ensures Follows(Escape(c, true) + tail)
  {
    hide Hex4;
    if c >= 0x1_0000 {
      var high, more := UnicodeEscape(HighHalf(c)), UnicodeEscape(LowHalf(c)) + tail;
      EscapeReads(HighHalf(c), more);
      assert Escape(c, true) + tail == high + more;
    } else if Escape(c, true) == UnicodeEscape(c) {
      EscapeReads(c, tail);
    }
  }

  lemma Regroup(w: Text, later: Text, close: Text, rest: Text)
    ensures w + close + rest == w + (close + rest)
    ensures w + later + close + rest == w + (later + close + rest)
    ensures w + [COMMA] + later + close + rest == w + ([COMMA] + (later + close + rest))
  {
  }

  lemma CharsGlue(e: Text, c: Code, tail: Text, later: Text, rest: Text)
    requires e != [] && e[0] != QUOTE
    requires Char(e + tail) == Some(Parsed(c, tail))
    requires Chars(tail) == Some(Parsed(later, rest))
    ensures Chars(e + tail) == Some(Parsed([c] + later, rest))
  {
  }

  lemma NoChars(rest: Text)
    ensures Chars([] + [QUOTE] + rest) == Some(Parsed([], rest))
  {
    assert ([] + [QUOTE] + rest)[1..] == rest;
  }

  /** What follows the first character of a text without joined surrogates. */
  lemma TailFollows(t: Text, rest: Text)
    requires t == [] || !Low(t[0])
    ensures Follows(EscapeAll(t, true) + [QUOTE] + rest)
  {
    if t != [] {
      EscapeFollows(t[0], EscapeAll(t[1..], true) + [QUOTE] + rest);
      Regroup(Escape(t[0], true), EscapeAll(t[1..], true), [QUOTE], rest);
    }
  }

  /** What a reader makes of escaped text: each high surrogate that stands before a
      low one is joined to it. */
  function Joined(t: Text): Text {
    if t == [] then []
    else if |t| >= 2 && High(t[0]) && Low(t[1]) then [Join(t[0], t[1])] + Joined(t[2..])
    else [t[0]] + Joined(t[1..])
  }

  function Join(high: Code, low: Code): (c: Code)
    requires High(high) && Low(low)
    ensures c >= 0x1_0000 && HighHalf(c) == high && LowHalf(c) == low
  {
    0x1_0000 + (high - 0xD800) * 1024 + (low - 0xDC00)
  }

  lemma PairEscapes(high: Code, low: Code)
    requires High(high) && Low(low)
    ensures Escape(high, true) + Escape(low, true) == Escape(Join(high, low), true)
  {
  }

  lemma TwoEscapes(t: Text)
    requires |t| >= 2
    ensures EscapeAll(t, true) == Escape(t[0], true) + Escape(t[1], true) + EscapeAll(t[2..], true)
  {
    hide Escape;
    var later := t[1..];
    assert later[0] == t[1] && later[1..] == t[2..];
    assert EscapeAll(later, true) == Escape(later[0], true) + EscapeAll(later[1..], true);
  }

  lemma {:induction false} EscapedCharsRead(t: Text, rest: Text)
    ensures Chars(EscapeAll(t, true) + [QUOTE] + rest) == Some(Parsed(Joined(t), rest))
    decreases |t|
  {
    hide Chars, Char, Escape, Join;
    if t == [] {
      NoChars(rest);
    } else if |t| >= 2 && High(t[0]) && Low(t[1]) {
      var c, more := Join(t[0], t[1]), EscapeAll(t[2..], true);
      var tail := more + [QUOTE] + rest;
      PairEscapes(t[0], t[1]);
      CharReads(c, true, tail);
      EscapedCharsRead(t[2..], rest);
      CharsGlue(Escape(c, true), c, tail, Joined(t[2..]), rest);
      TwoEscapes(t);
      Regroup(Escape(c, true), more, [QUOTE], rest);
    } else {
      var e, tail := Escape(t[0], true), EscapeAll(t[1..], true) + [QUOTE] + rest;
      if High(t[0]) {
        TailFollows(t[1..], rest);
      }
      CharReads(t[0], true, tail);
      EscapedCharsRead(t[1..], rest);
      CharsGlue(e, t[0], tail, Joined(t[1..]), rest);
      Regroup(e, EscapeAll(t[1..], true), [QUOTE], rest);
    }
  }

  lemma {:induction false} JoinedIsSame(t: Text)
    ensures |Joined(t)| <= |t| && (Joined(t) == t <==> Unpaired(t))
    decreases |t|
  {
    hide Join;
    if t == [] {
    } else if |t| >= 2 && High(t[0]) && Low(t[1]) {
      JoinedIsSame(t[2..]);
    } else {
      JoinedIsSame(t[1..]);
      var rest := Joined(t[1..]);
      assert ([t[0]] + rest)[1..] == rest && t == [t[0]] + t[1..];
    }
  }

  /** Text escaped to ASCII is read back as itself exactly when it holds no lone high
      surrogate right before a lone low one. */
  lemma EscapedTextReadsIff(t: Text, rest: Text)
    ensures Chars(EscapeAll(t, true) + [QUOTE] + rest) == Some(Parsed(t, rest)) <==> Unpaired(t)
  {
    hide Chars, Joined, Unpaired;
    EscapedCharsRead(t, rest);
    JoinedIsSame(t);
  }

  lemma {:induction false} CharsRead(t: Text, ascii: bool, rest: Text)
    requires ascii ==> Unpaired(t)
    ensures Chars(EscapeAll(t, ascii) + [QUOTE] + rest) == Some(Parsed(t, rest))
  {
    hide Chars, Char, Escape;
    if ascii {
      EscapedTextReadsIff(t, rest);
    } else if t == [] {
      NoChars(rest);
    } else {
      var e, tail := Escape(t[0], ascii), EscapeAll(t[1..], ascii) + [QUOTE] + rest;
      CharReads(t[0], ascii, tail);
      CharsRead(t[1..], ascii, rest);
      CharsGlue(e, t[0], tail, t[1..], rest);
      Regroup(e, EscapeAll(t[1..], ascii), [QUOTE], rest);
      assert t == [t[0]] + t[1..];
    }
  }

  lemma Peel(first: Code, middle: Text, last: Text)
    ensures [first] + middle + last != [] && ([first] + middle + last)[0] == first
    ensures ([first] + middle + last)[1..] == middle + last
  {
  }

  lemma QuotedReads(t: Text, ascii: bool, rest: Text)
    requires ascii ==> Unpaired(t)
    ensures Starts(Quoted(t, ascii) + rest, QUOTE)
    ensures Chars((Quoted(t, ascii) + rest)[1..]) == Some(Parsed(t, rest))
  {
    CharsRead(t, ascii, rest);
    var body := EscapeAll(t, ascii) + [QUOTE];
    assert Quoted(t, ascii) == [QUOTE] + body;
    Peel(QUOTE, body, rest);
  }

  // ---------------------------------------------------------------- integers

  /** What may follow a value inside a larger text. */
  predicate Stops(rest: Text) {
    rest == [] || rest[0] == COMMA || rest[0] == CLOSE_ARRAY || rest[0] == CLOSE_OBJECT
  }

  lemma {:induction false} RunOfDigits(t: Text, rest: Text)
    requires forall c | c in t :: Digit(c)
    requires rest == [] || !Digit(rest[0])
    ensures Run(t + rest) == |t|
  {
    if t == [] {
      assert t + rest == rest;
    } else {
      assert (t + rest)[1..] == t[1..] + rest;
      RunOfDigits(t[1..], rest);
    }
  }

  lemma {:induction false} DigitsRead(n: nat)
    ensures ValueOf(Digits(n)) == n
  {
    if n >= 10 {
      DigitsRead(n / 10);
      assert Digits(n)[..|Digits(n)| - 1] == Digits(n / 10);
    } else {
      assert ValueOf([]) == 0;
      assert Digits(n)[..0] == [];
    }
  }

  lemma MagnitudeReads(n: nat, rest: Text)
    requires Stops(rest)
    ensures Magnitude(Digits(n) + rest) == Some(Parsed(n, rest))
  {
    var t := Digits(n);
    RunOfDigits(t, rest);
    DigitsRead(n);
    assert (t + rest)[..|t|] == t && (t + rest)[|t|..] == rest;
  }

  lemma SignedReads(t: Text, n: nat, rest: Text)
    requires t != [] && t[0] != MINUS && !Float(rest)
    requires Magnitude(t + rest) == Some(Parsed(n, rest))
    ensures Number(t + rest) == Some(Parsed(Int(n), rest))
    ensures Number([MINUS] + t + rest) == Some(Parsed(Int(0 - n), rest))
  {
    Peel(MINUS, t, rest);
  }

  lemma FirstDigit(n: nat)
    ensures Digit(Digits(n)[0])
  {
    assert Digits(n)[0] in Digits(n);
  }

  lemma NumberReads(i: int, rest: Text)
    requires Stops(rest)
    ensures Number(Decimal(i) + rest) == Some(Parsed(Int(i), rest))
    ensures (Decimal(i) + rest)[0] == MINUS || Digit((Decimal(i) + rest)[0])
  {
    var n := if i < 0 then -i else i;
    FirstDigit(n);
    MagnitudeReads(n, rest);
    SignedReads(Digits(n), n, rest);
  }

  // ---------------------------------------------------------------- values

  /** The first character decides the branch of the parser. */
  lemma FirstChar(v: Json, ascii: bool)
    ensures var t := Write(v, ascii);
            && t != [] && !White(t[0]) && t[0] != CLOSE_ARRAY && t[0] != CLOSE_OBJECT
            && t[0] < 0x80
  {
    if v.Int? {
      FirstDigit(if v.i < 0 then -v.i else v.i);
    }
  }

  lemma WordReads(word: Text, v: Json, rest: Text)
    requires word != []
    ensures Word(word + rest, word, v) == Some(Parsed(v, rest))
  {
    assert word <= word + rest;
    assert (word + rest)[|word|..] == rest;
  }

  /** Which branch of the parser a first character selects. */
  lemma Dispatch(s: Text)
    requires s != []
    ensures s[0] == MINUS || Digit(s[0]) ==> Value(s) == Number(s)
    ensures s[0] == NULL_TEXT[0] ==> Value(s) == Word(s, NULL_TEXT, Null)
    ensures s[0] == TRUE_TEXT[0] ==> Value(s) == Word(s, TRUE_TEXT, Bool(true))
    ensures s[0] == FALSE_TEXT[0] ==> Value(s) == Word(s, FALSE_TEXT, Bool(false))
  {
  }

  lemma DispatchString(s: Text, t: Text, rest: Text)
    requires Starts(s, QUOTE) && Chars(s[1..]) == Some(Parsed(t, rest))
    ensures Value(s) == Some(Parsed(Str(t), rest))
  {
  }

  lemma ScalarReads(v: Json, ascii: bool, rest: Text)
    requires !v.Arr? && !v.Obj? && Stops(rest)
    requires ascii ==> Readable(v)
    ensures Value(Write(v, ascii) + rest) == Some(Parsed(v, rest))
  {
    match v
    case Null =>
      WordReads(NULL_TEXT, v, rest);
      Dispatch(NULL_TEXT + rest);
    case Bool(b) =>
      var word := if b then TRUE_TEXT else FALSE_TEXT;
      WordReads(word, v, rest);
      Dispatch(word + rest);
    case Int(i) =>
      NumberReads(i, rest);
      Dispatch(Decimal(i) + rest);
    case Str(s) =>
      QuotedReads(s, ascii, rest);
      DispatchString(Quoted(s, ascii) + rest, s, rest);
  }

  lemma {:induction false} ValueReads(v: Json, ascii: bool, rest: Text)
    requires Dicts(v) && (ascii ==> Readable(v)) && Stops(rest)
    ensures Value(Write(v, ascii) + rest) == Some(Parsed(v, rest))
    decreases v, 1
  {
    match v
    case Arr(items) => ArrayReads(items, ascii, rest);
    case Obj(fields) => ObjectReads(fields, ascii, rest);
    case _ => ScalarReads(v, ascii, rest);
  }

  lemma {:induction false} ArrayReads(items: seq<Json>, ascii: bool, rest: Text)
    requires Dicts(Arr(items)) && (ascii ==> Readable(Arr(items)))
    ensures Value(Write(Arr(items), ascii) + rest) == Some(Parsed(Arr(items), rest))
    decreases Arr(items), 0
  {
    var s := Write(Arr(items), ascii) + rest;
    var inside := WriteItems(items, ascii) + [CLOSE_ARRAY] + rest;
    assert s[1..] == inside;
    if items == [] {
      assert inside == [CLOSE_ARRAY] + rest;
      assert inside[1..] == rest;
    } else {
      ItemsStart(items, ascii);
      ItemsRead(items, ascii, rest);
    }
  }

  lemma ItemsStart(items: seq<Json>, ascii: bool)
    requires items != []
    ensures var t := WriteItems(items, ascii);
            t != [] && !White(t[0]) && t[0] != CLOSE_ARRAY
  {
    FirstChar(items[0], ascii);
  }

  lemma ItemsGlue(w: Text, first: Json, tail: Text, later: seq<Json>, rest: Text)
    ensures Value(w + ([CLOSE_ARRAY] + rest)) == Some(Parsed(first, [CLOSE_ARRAY] + rest))
            ==> Items(w + ([CLOSE_ARRAY] + rest)) == Some(Parsed([first], rest))
    ensures Value(w + ([COMMA] + tail)) == Some(Parsed(first, [COMMA] + tail))
            && (tail == [] || !White(tail[0])) && Items(tail) == Some(Parsed(later, rest))
            ==> Items(w + ([COMMA] + tail)) == Some(Parsed([first] + later, rest))
  {
    assert ([CLOSE_ARRAY] + rest)[1..] == rest && ([COMMA] + tail)[1..] == tail;
  }

  lemma {:induction false} ItemsRead(items: seq<Json>, ascii: bool, rest: Text)
    requires items != []
    requires forall i | 0 <= i < |items| :: Dicts(items[i]) && (ascii ==> Readable(items[i]))
    ensures Items(WriteItems(items, ascii) + [CLOSE_ARRAY] + rest) == Some(Parsed(items, rest))
    decreases items, 0
  {
    var first, later := items[0], items[1..];
    if later == [] {
      var more := [CLOSE_ARRAY] + rest;
      ValueReads(first, ascii, more);
      ItemsGlue(Write(first, ascii), first, [], [], rest);
      Regroup(Write(first, ascii), [], [CLOSE_ARRAY], rest);
      assert items == [first];
    } else {
      var tail := WriteItems(later, ascii) + [CLOSE_ARRAY] + rest;
      var more := [COMMA] + tail;
      ValueReads(first, ascii, more);
      ItemsStart(later, ascii);
      ItemsRead(later, ascii, rest);
      ItemsGlue(Write(first, ascii), first, tail, later, rest);
      Regroup(Write(first, ascii), WriteItems(later, ascii), [CLOSE_ARRAY], rest);
      assert items == [first] + later;
    }
  }

  lemma {:induction false} ObjectReads(fields: seq<Field>, ascii: bool, rest: Text)
    requires Dicts(Obj(fields)) && (ascii ==> Readable(Obj(fields)))
    ensures Value(Write(Obj(fields), ascii) + rest) == Some(Parsed(Obj(fields), rest))
    decreases Obj(fields), 0
  {
    var s := Write(Obj(fields), ascii) + rest;
    var inside := WriteFields(fields, ascii) + [CLOSE_OBJECT] + rest;
    assert s[1..] == inside;
    if fields == [] {
      assert inside == [CLOSE_OBJECT] + rest;
      assert inside[1..] == rest;
    } else {
      FieldsStart(fields, ascii);
      FieldsRead(fields, ascii, rest);
    }
  }

  lemma FieldsStart(fields: seq<Field>, ascii: bool)
    requires fields != []
    ensures WriteFields(fields, ascii) != [] && WriteFields(fields, ascii)[0] == QUOTE
  {
  }

  lemma {:induction false} FieldReads(f: Field, ascii: bool, rest: Text)
    requires Writable(f, ascii) && Stops(rest)
    ensures Member(WriteField(f, ascii) + rest) == Some(Parsed(f, rest))
    decreases f, 0
  {
    var value := Write(f.value, ascii) + rest;
    var s := [COLON] + value;
    assert WriteField(f, ascii) + rest == Quoted(f.key, ascii) + s;
    QuotedReads(f.key, ascii, s);
    assert s[1..] == value;
    FirstChar(f.value, ascii);
    ValueReads(f.value, ascii, rest);
  }

  lemma FieldsGlue(w: Text, first: Field, tail: Text, later: seq<Field>, rest: Text)
    ensures Member(w + ([CLOSE_OBJECT] + rest)) == Some(Parsed(first, [CLOSE_OBJECT] + rest))
            ==> Members(w + ([CLOSE_OBJECT] + rest)) == Some(Parsed([first], rest))
    ensures Member(w + ([COMMA] + tail)) == Some(Parsed(first, [COMMA] + tail))
            && (tail == [] || !White(tail[0])) && Members(tail) == Some(Parsed(later, rest))
            ==> Members(w + ([COMMA] + tail)) == Some(Parsed([first] + later, rest))
  {
    assert ([CLOSE_OBJECT] + rest)[1..] == rest && ([COMMA] + tail)[1..] == tail;
  }

  predicate Writable(f: Field, ascii: bool) {
    Dicts(f.value) && (ascii ==> Unpaired(f.key) && Readable(f.value))
  }

  lemma {:induction false} LastField(f: Field, ascii: bool, rest: Text)
    requires Writable(f, ascii)
    ensures Members(WriteFields([f], ascii) + [CLOSE_OBJECT] + rest) == Some(Parsed([f], rest))
    decreases f, 1
  {
    FieldReads(f, ascii, [CLOSE_OBJECT] + rest);
    FieldsGlue(WriteField(f, ascii), f, [], [], rest);
    Regroup(WriteField(f, ascii), [], [CLOSE_OBJECT], rest);
  }

  lemma {:induction false} FieldsRead(fields: seq<Field>, ascii: bool, rest: Text)
    requires fields != []
    requires forall f | f in fields :: Writable(f, ascii)
    ensures Members(WriteFields(fields, ascii) + [CLOSE_OBJECT] + rest) == Some(Parsed(fields, rest))
    decreases fields, 0
  {
    var first, later := fields[0], fields[1..];
    if later == [] {
      LastField(first, ascii, rest);
      assert fields == [first];
    } else {
      var tail := WriteFields(later, ascii) + [CLOSE_OBJECT] + rest;
      FieldReads(first, ascii, [COMMA] + tail);
      FieldsStart(later, ascii);
      FieldsRead(later, ascii, rest);
      FieldsGlue(WriteField(first, ascii), first, tail, later, rest);
      Regroup(WriteField(first, ascii), WriteFields(later, ascii), [CLOSE_OBJECT], rest);
      assert fields == [first] + later;
    }
  }

  /** The whole text of a value parses to that value, in any key order. */
  lemma ParseUndoesWrite(v: Json, ascii: bool)
    requires Dicts(v) && (ascii ==> Readable(v))
    ensures Parse(Write(v, ascii)) == Some(v)
  {
    var t := Write(v, ascii);
    FirstChar(v, ascii);
    assert t + [] == t;
    ValueReads(v, ascii, []);
  }

  lemma JoinedPair(t: Text)
    requires |t| == 2 && High(t[0]) && Low(t[1])
    ensures Joined(t) == [Join(t[0], t[1])] && !Encodable(t)
  {
    hide Join;
    assert t[2..] == [] && Joined(t[2..]) == [];
    assert Surrogate(t[0]);
  }

  /** Not every text: two lone surrogates in a row are read back as one character.
      Strict UTF-8 refuses such text. */
  lemma EscapedSurrogatesMerge(t: Text)
    requires |t| == 2 && High(t[0]) && Low(t[1])
    ensures !Encodable(t) && Chars(EscapeAll(t, true) + [QUOTE]) == Some(Parsed([Join(t[0], t[1])], []))
  {
    hide Chars, EscapeAll, Encodable, Join, Joined;
    JoinedPair(t);
    EscapedCharsRead(t, []);
    var written := EscapeAll(t, true) + [QUOTE];
    assert written + [] == written;
  }
}
