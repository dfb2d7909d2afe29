/** Canonical form: every object's keys in code point order.  canonical_json_bytes
    writes that form in UTF-8; strict_json_loads reads it back. */
module JsonCanonical {
  import opened Options
  import opened Bytes
  import opened Utf8
  import opened JsonText
  import opened JsonParser
  import opened JsonRoundTrip

  // ---------------------------------------------------------------- the order of keys

  predicate Less(a: Text, b: Text) {
    b != [] && (a == [] || a[0] < b[0] || (a[0] == b[0] && Less(a[1..], b[1..])))
  }

  lemma {:induction false} LessIsStrict(a: Text, b: Text)
    ensures !(Less(a, b) && Less(b, a))
    ensures a == b ==> !Less(a, b)
  {
    if a != [] && b != [] {
      LessIsStrict(a[1..], b[1..]);
    }
  }

  lemma {:induction false} LessIsTotal(a: Text, b: Text)
    ensures Less(a, b) || a == b || Less(b, a)
  {
    if a != [] && b != [] && a[0] == b[0] {
      LessIsTotal(a[1..], b[1..]);
      assert a == [a[0]] + a[1..] && b == [b[0]] + b[1..];
    }
  }

  lemma {:induction false} LessIsTransitive(a: Text, b: Text, c: Text)
    requires Less(a, b) && Less(b, c)
    ensures Less(a, c)
  {
    if a != [] && a[0] == b[0] == c[0] {
      LessIsTransitive(a[1..], b[1..], c[1..]);
    }
  }

  predicate SortedKeys(fields: seq<Field>) {
    forall i, j | 0 <= i < j < |fields| :: Less(fields[i].key, fields[j].key)
  }

  function Insert(f: Field, fields: seq<Field>): seq<Field> {
    if fields == [] || Less(f.key, fields[0].key) then [f] + fields
    else [fields[0]] + Insert(f, fields[1..])
  }

  lemma {:induction false} InsertHolds(f: Field, fields: seq<Field>)
    ensures |Insert(f, fields)| == |fields| + 1
    ensures forall g :: g in Insert(f, fields) <==> g == f || g in fields
  {
    if fields != [] && !Less(f.key, fields[0].key) {
      InsertHolds(f, fields[1..]);
      assert fields == [fields[0]] + fields[1..];
    }
  }

  lemma {:induction false} InsertSorts(f: Field, fields: seq<Field>)
    requires SortedKeys(fields) && (forall g | g in fields :: g.key != f.key)
    ensures SortedKeys(Insert(f, fields))
  {
    if fields == [] {
    } else if Less(f.key, fields[0].key) {
      forall j | 0 < j < |fields| ensures Less(f.key, fields[j].key) {
        LessIsTransitive(f.key, fields[0].key, fields[j].key);
      }
    } else {
      var first, rest := fields[0], Insert(f, fields[1..]);
      LessIsTotal(f.key, first.key);
      assert first in fields;
      InsertSorts(f, fields[1..]);
      InsertHolds(f, fields[1..]);
      forall j | 0 <= j < |rest| ensures Less(first.key, rest[j].key) {
        assert rest[j] in rest;
      }
    }
  }

  lemma SortedIsDistinct(fields: seq<Field>)
    requires SortedKeys(fields)
    ensures DistinctKeys(fields)
  {
    forall i, j | 0 <= i < j < |fields| ensures fields[i].key != fields[j].key {
      LessIsStrict(fields[i].key, fields[j].key);
    }
  }

  lemma SameEmptiness(a: seq<Field>, b: seq<Field>)
    requires forall f | f in a :: f in b
    ensures a != [] ==> b != []
  {
    if a != [] {
      assert a[0] in b;
    }
  }

  /** A sorted list is determined by its elements. */
  lemma {:induction false} SortedIsUnique(a: seq<Field>, b: seq<Field>)
    requires SortedKeys(a) && SortedKeys(b)
    requires forall f :: f in a <==> f in b
    ensures a == b
  {
    SameEmptiness(a, b);
    SameEmptiness(b, a);
    if a != [] {
      assert a[0] in a && b[0] in b;
      HeadsAgree(a, b);
      forall f ensures f in a[1..] <==> f in b[1..] {
        TailMembers(a, f);
        TailMembers(b, f);
      }
      SortedIsUnique(a[1..], b[1..]);
      assert a == [a[0]] + a[1..] && b == [b[0]] + b[1..];
    }
  }

  lemma HeadsAgree(a: seq<Field>, b: seq<Field>)
    requires SortedKeys(a) && SortedKeys(b) && a != [] && b != []
    requires a[0] in b && b[0] in a
    ensures a[0] == b[0]
  {
    var i :| 0 <= i < |b| && b[i] == a[0];
    var j :| 0 <= j < |a| && a[j] == b[0];
    if i > 0 && j > 0 {
      LessIsStrict(a[0].key, b[0].key);
    }
  }

  lemma TailMembers(a: seq<Field>, f: Field)
    requires SortedKeys(a) && a != []
    ensures f in a[1..] <==> f in a && f != a[0]
  {
    if f in a[1..] {
      LessIsStrict(a[0].key, f.key);
    }
  }

  // ---------------------------------------------------------------- canonical values

  function Canon(v: Json): Json
    decreases v
  {
    match v
    case Arr(items) => Arr(CanonItems(items))
    case Obj(fields) => Obj(CanonFields(fields))
    case _ => v
  }

  function CanonItems(items: seq<Json>): (r: seq<Json>)
    ensures |r| == |items| && forall i | 0 <= i < |r| :: r[i] == Canon(items[i])
    decreases items
  {
    if items == [] then [] else [Canon(items[0])] + CanonItems(items[1..])
  }

  function CanonField(f: Field): Field
    decreases f
  {
    Field(f.key, Canon(f.value))
  }

  function CanonFields(fields: seq<Field>): seq<Field>
    decreases fields
  {
    if fields == [] then [] else Insert(CanonField(fields[0]), CanonFields(fields[1..]))
  }

  ghost predicate HasField(fields: seq<Field>, x: Field) {
    exists f | f in fields :: x == CanonField(f)
  }

  lemma HasFieldCons(first: Field, later: seq<Field>, x: Field)
    ensures HasField([first] + later, x) <==> x == CanonField(first) || HasField(later, x)
  {
    if x == CanonField(first) {
      assert first in [first] + later;
    } else if HasField(later, x) {
      var f :| f in later && x == CanonField(f);
      assert f in [first] + later;
    }
  }

  lemma {:induction false} CanonFieldsHold(fields: seq<Field>)
    ensures |CanonFields(fields)| == |fields|
    ensures forall x :: x in CanonFields(fields) <==> HasField(fields, x)
  {
    if fields != [] {
      var first, later := fields[0], fields[1..];
      CanonFieldsHold(later);
      InsertHolds(CanonField(first), CanonFields(later));
      forall x ensures HasField(fields, x) <==> x == CanonField(first) || HasField(later, x) {
        HasFieldCons(first, later, x);
        assert fields == [first] + later;
      }
    }
  }

  lemma {:induction false} CanonFieldsSort(fields: seq<Field>)
    requires DistinctKeys(fields)
    ensures SortedKeys(CanonFields(fields))
  {
    if fields != [] {
      var first, later := fields[0], fields[1..];
      CanonFieldsSort(later);
      CanonFieldsHold(later);
      forall g | g in CanonFields(later) ensures g.key != first.key {
        var f :| f in later && g == CanonField(f);
        var i :| 0 <= i < |later| && f == later[i];
        assert f == fields[i + 1];
      }
      InsertSorts(CanonField(first), CanonFields(later));
    }
  }

  /** Equality of Python values: the order of an object's keys does not matter. */
  ghost predicate Same(v: Json, w: Json)
    decreases v, 0
  {
    match v
    case Arr(a) => w.Arr? && |a| == |w.items| && forall i | 0 <= i < |a| :: Same(a[i], w.items[i])
    case Obj(a) =>
      && w.Obj?
      && (forall f | f in a :: HasMatch(f, w.fields))
      && (forall g | g in w.fields :: MatchedBy(g, a))
    case _ => v == w
  }

  ghost predicate Agree(f: Field, g: Field)
    decreases f, 0
  {
    f.key == g.key && Same(f.value, g.value)
  }

  ghost predicate HasMatch(f: Field, fields: seq<Field>)
    decreases f, 1
  {
    exists g | g in fields :: Agree(f, g)
  }

  ghost predicate MatchedBy(g: Field, fields: seq<Field>)
    decreases fields, 1
  {
    exists f | f in fields :: Agree(f, g)
  }

  lemma {:induction false} SameIffCanon(v: Json, w: Json)
    requires Dicts(v) && Dicts(w)
    ensures Same(v, w) <==> Canon(v) == Canon(w)
    decreases v, 0
  {
    if v.Arr? && w.Arr? {
      ItemsSameIffCanon(v.items, w.items);
    } else if v.Obj? && w.Obj? {
      forall f, g | f in v.fields && g in w.fields ensures Agree(f, g) <==> CanonField(f) == CanonField(g) {
        SameIffCanon(f.value, g.value);
      }
      FieldsSameIffCanon(v.fields, w.fields);
    }
  }

  lemma {:induction false} ItemsSameIffCanon(a: seq<Json>, b: seq<Json>)
    requires Dicts(Arr(a)) && Dicts(Arr(b))
    ensures Same(Arr(a), Arr(b)) <==> CanonItems(a) == CanonItems(b)
    decreases a, 1
  {
    if |a| == |b| {
      forall i | 0 <= i < |a| ensures Same(a[i], b[i]) <==> CanonItems(a)[i] == CanonItems(b)[i] {
        SameIffCanon(a[i], b[i]);
      }
    }
  }

  ghost predicate AgreeIffCanon(a: seq<Field>, b: seq<Field>) {
    forall f, g | f in a && g in b :: Agree(f, g) <==> CanonField(f) == CanonField(g)
  }

  lemma MatchIsMembership(f: Field, g: Field, a: seq<Field>, b: seq<Field>)
    requires AgreeIffCanon(a, b)
    ensures f in a ==> (HasMatch(f, b) <==> HasField(b, CanonField(f)))
    ensures g in b ==> (MatchedBy(g, a) <==> HasField(a, CanonField(g)))
  {
  }

  lemma FieldsSameIffCanon(a: seq<Field>, b: seq<Field>)
    requires DistinctKeys(a) && DistinctKeys(b) && AgreeIffCanon(a, b)
    ensures Same(Obj(a), Obj(b)) <==> CanonFields(a) == CanonFields(b)
  {
    forall f | f in a ensures HasMatch(f, b) <==> HasField(b, CanonField(f)) {
      MatchIsMembership(f, f, a, b);
    }
    forall g | g in b ensures MatchedBy(g, a) <==> HasField(a, CanonField(g)) {
      MatchIsMembership(g, g, a, b);
    }
    FieldsEqualIff(a, b);
  }

  lemma FieldsEqualIff(a: seq<Field>, b: seq<Field>)
    requires DistinctKeys(a) && DistinctKeys(b)
    ensures CanonFields(a) == CanonFields(b)
            <==> (forall f | f in a :: HasField(b, CanonField(f))) && (forall g | g in b :: HasField(a, CanonField(g)))
  {
    CanonFieldsHold(a);
    CanonFieldsHold(b);
    CanonFieldsSort(a);
    CanonFieldsSort(b);
    if CanonFields(a) == CanonFields(b) {
      forall f | f in a ensures HasField(b, CanonField(f)) {
        assert HasField(a, CanonField(f));
      }
      forall g | g in b ensures HasField(a, CanonField(g)) {
        assert HasField(b, CanonField(g));
      }
    } else if (forall f | f in a :: HasField(b, CanonField(f))) && (forall g | g in b :: HasField(a, CanonField(g))) {
      SortedIsUnique(CanonFields(a), CanonFields(b));
    }
  }

  /** Sorting keeps a value well formed, and sorting twice is sorting once. */
  ghost predicate Kept(v: Json) {
    && Dicts(Canon(v)) && Canon(Canon(v)) == Canon(v)
    && (Scalar(Canon(v)) <==> Scalar(v)) && (Readable(Canon(v)) <==> Readable(v))
  }

  lemma {:induction false} CanonKeeps(v: Json)
    requires Dicts(v)
    ensures Kept(v)
    decreases v
  {
    match v
    case Arr(items) =>
      forall i | 0 <= i < |items| ensures Kept(items[i]) {
        CanonKeeps(items[i]);
      }
      assert CanonItems(CanonItems(items)) == CanonItems(items);
    case Obj(fields) =>
      forall f | f in fields ensures Kept(f.value) {
        CanonKeeps(f.value);
      }
      CanonObjectKeeps(fields);
    case _ =>
  }

  lemma FieldAt(fields: seq<Field>, k: nat) returns (f: Field)
    requires k < |CanonFields(fields)|
    ensures f in fields && CanonFields(fields)[k] == CanonField(f)
  {
    CanonFieldsHold(fields);
    assert CanonFields(fields)[k] in CanonFields(fields);
    f :| f in fields && CanonFields(fields)[k] == CanonField(f);
  }

  lemma FieldIn(fields: seq<Field>, i: nat) returns (k: nat)
    requires i < |fields|
    ensures k < |CanonFields(fields)| && CanonFields(fields)[k] == CanonField(fields[i])
  {
    CanonFieldsHold(fields);
    assert fields[i] in fields;
    assert HasField(fields, CanonField(fields[i]));
    k :| 0 <= k < |CanonFields(fields)| && CanonFields(fields)[k] == CanonField(fields[i]);
  }

  lemma CanonObjectKeeps(fields: seq<Field>)
    requires DistinctKeys(fields) && forall f | f in fields :: Kept(f.value)
    ensures Kept(Obj(fields))
  {
    var r := CanonFields(fields);
    CanonFieldsSort(fields);
    SortedIsDistinct(r);
    forall k | 0 <= k < |r| ensures Dicts(r[k].value) && CanonField(r[k]) == r[k] {
      var f := FieldAt(fields, k);
    }
    CanonScalar(fields);
    CanonReadable(fields);
    CanonFixed(r);
  }

  lemma CanonScalar(fields: seq<Field>)
    requires forall f | f in fields :: Kept(f.value)
    ensures Scalar(Obj(CanonFields(fields))) <==> Scalar(Obj(fields))
  {
    var r := CanonFields(fields);
    if Scalar(Obj(fields)) {
      forall k | 0 <= k < |r| ensures Encodable(r[k].key) && Scalar(r[k].value) {
        var f := FieldAt(fields, k);
        var i :| 0 <= i < |fields| && fields[i] == f;
      }
    }
    if Scalar(Obj(r)) {
      forall i | 0 <= i < |fields| ensures Encodable(fields[i].key) && Scalar(fields[i].value) {
        var k := FieldIn(fields, i);
      }
    }
  }

  lemma CanonReadable(fields: seq<Field>)
    requires forall f | f in fields :: Kept(f.value)
    ensures Readable(Obj(CanonFields(fields))) <==> Readable(Obj(fields))
  {
    var r := CanonFields(fields);
    if Readable(Obj(fields)) {
      forall k | 0 <= k < |r| ensures Unpaired(r[k].key) && Readable(r[k].value) {
        var f := FieldAt(fields, k);
        var i :| 0 <= i < |fields| && fields[i] == f;
      }
    }
    if Readable(Obj(r)) {
      forall i | 0 <= i < |fields| ensures Unpaired(fields[i].key) && Readable(fields[i].value) {
        var k := FieldIn(fields, i);
      }
    }
  }

  lemma CanonFixed(r: seq<Field>)
    requires SortedKeys(r) && forall k | 0 <= k < |r| :: CanonField(r[k]) == r[k]
    ensures CanonFields(r) == r
  {
    SortedIsDistinct(r);
    CanonFieldsSort(r);
    CanonFieldsHold(r);
    forall x ensures HasField(r, x) <==> x in r {
      if x in r {
        var k :| 0 <= k < |r| && r[k] == x;
      }
    }
    SortedIsUnique(CanonFields(r), r);
  }

  // ---------------------------------------------------------------- canonical_json_bytes and strict_json_loads

  /** Every character written is printable, so no line break is among them. */
  lemma {:induction false} WrittenChars(v: Json, ascii: bool, c: Code)
    requires c in Write(v, ascii)
    ensures c >= 0x20 && (ascii ==> c < 0x7F)
    decreases v
  {
    match v
    case Int(i) =>
    case Str(s) => QuotedChars(s, ascii, c);
    case Arr(items) => if c in WriteItems(items, ascii) { ItemsChars(items, ascii, c); }
    case Obj(fields) => if c in WriteFields(fields, ascii) { FieldsChars(fields, ascii, c); }
    case _ =>
  }

  lemma {:induction false} EscapedChars(t: Text, ascii: bool, c: Code)
    requires c in EscapeAll(t, ascii)
    ensures c >= 0x20 && (ascii ==> c < 0x7F)
  {
    if c !in Escape(t[0], ascii) {
      EscapedChars(t[1..], ascii, c);
    }
  }

  lemma QuotedChars(t: Text, ascii: bool, c: Code)
    requires c in Quoted(t, ascii)
    ensures c >= 0x20 && (ascii ==> c < 0x7F)
  {
    if c in EscapeAll(t, ascii) {
      EscapedChars(t, ascii, c);
    }
  }

  lemma {:induction false} ItemsChars(items: seq<Json>, ascii: bool, c: Code)
    requires c in WriteItems(items, ascii)
    ensures c >= 0x20 && (ascii ==> c < 0x7F)
    decreases items
  {
    if c in Write(items[0], ascii) {
      WrittenChars(items[0], ascii, c);
    } else if |items| > 1 && c in WriteItems(items[1..], ascii) {
      ItemsChars(items[1..], ascii, c);
    }
  }

  lemma {:induction false} FieldsChars(fields: seq<Field>, ascii: bool, c: Code)
    requires c in WriteFields(fields, ascii)
    ensures c >= 0x20 && (ascii ==> c < 0x7F)
    decreases fields
  {
    var f := fields[0];
    if c in Quoted(f.key, ascii) {
      QuotedChars(f.key, ascii, c);
    } else if c in Write(f.value, ascii) {
      WrittenChars(f.value, ascii, c);
    } else if |fields| > 1 && c in WriteFields(fields[1..], ascii) {
      FieldsChars(fields[1..], ascii, c);
    }
  }

  /** json.dumps(..., ensure_ascii=False) is encodable exactly when no string or
      key of the value holds a lone surrogate. */
  lemma EncodableConcat(a: Text, b: Text)
    ensures Encodable(a + b) <==> Encodable(a) && Encodable(b)
  {
    if Encodable(a + b) {
      assert forall c | c in a :: c in a + b;
      assert forall c | c in b :: c in a + b;
    }
  }

  lemma CharEncodable(c: Code)
    ensures Encodable(Escape(c, false)) <==> Encodable([c])
  {
    assert c in [c];
    assert Escape(c, false)[0] in Escape(c, false);
  }

  lemma {:induction false} EscapeEncodable(t: Text)
    ensures Encodable(EscapeAll(t, false)) <==> Encodable(t)
  {
    hide Escape, Encodable;
    if t != [] {
      var first: Text := [t[0]];
      CharEncodable(t[0]);
      EncodableConcat(Escape(t[0], false), EscapeAll(t[1..], false));
      EncodableConcat(first, t[1..]);
      EscapeEncodable(t[1..]);
      assert t == first + t[1..];
    }
  }

  lemma Wrapped(a: Text, b: Text, open: Code, close: Code)
    requires !Surrogate(open) && !Surrogate(close)
    ensures Encodable([open] + a + [close]) <==> Encodable(a)
    ensures Encodable(a + [open] + b) <==> Encodable(a) && Encodable(b)
  {
    EncodableConcat([open] + a, [close]);
    EncodableConcat([open], a);
    EncodableConcat(a + [open], b);
    EncodableConcat(a, [open]);
  }

  lemma QuotedEncodable(t: Text)
    ensures Encodable(Quoted(t, false)) <==> Encodable(t)
  {
    EscapeEncodable(t);
    Wrapped(EscapeAll(t, false), [], QUOTE, QUOTE);
  }

  lemma {:induction false} WriteEncodable(v: Json)
    ensures Encodable(Write(v, false)) <==> Scalar(v)
    decreases v, 0
  {
    match v
    case Int(i) =>
      assert Scalar(v);
    case Str(s) => QuotedEncodable(s);
    case Arr(items) =>
      ItemsEncodable(items);
      Wrapped(WriteItems(items, false), [], OPEN_ARRAY, CLOSE_ARRAY);
    case Obj(fields) =>
      FieldsEncodable(fields);
      Wrapped(WriteFields(fields, false), [], OPEN_OBJECT, CLOSE_OBJECT);
    case _ =>
  }

  lemma {:induction false} ItemsEncodable(items: seq<Json>)
    ensures Encodable(WriteItems(items, false)) <==> forall i | 0 <= i < |items| :: Scalar(items[i])
    decreases items, 0
  {
    if items != [] {
      WriteEncodable(items[0]);
      if |items| > 1 {
        ItemsEncodable(items[1..]);
        Wrapped(Write(items[0], false), WriteItems(items[1..], false), COMMA, COMMA);
      }
      assert items == [items[0]] + items[1..];
    }
  }

  predicate FieldScalar(f: Field) {
    Encodable(f.key) && Scalar(f.value)
  }

  lemma {:induction false} FieldsEncodable(fields: seq<Field>)
    ensures Encodable(WriteFields(fields, false)) <==> forall i | 0 <= i < |fields| :: FieldScalar(fields[i])
    decreases fields, 0
  {
    if fields != [] {
      var f := fields[0];
      WriteEncodable(f.value);
      QuotedEncodable(f.key);
      Wrapped(Quoted(f.key, false), Write(f.value, false), COLON, COLON);
      if |fields| > 1 {
        FieldsEncodable(fields[1..]);
        Wrapped(WriteField(f, false), WriteFields(fields[1..], false), COMMA, COMMA);
      }
      assert fields == [f] + fields[1..];
    }
  }

  /** canonical_json_bytes; None is the UnicodeEncodeError. */
  function CanonicalBytes(v: Json): Option<seq<byte>> {
    var t := Write(Canon(v), false);
    if Encodable(t) then Some(EncodeText(t)) else None
  }

  datatype Loaded = Value(v: Json) | Invalid | OtherEncoding

  /** json.detect_encoding: a byte order mark or a zero byte near the start means
      an encoding other than plain UTF-8. */
  predicate PlainUtf8(b: seq<byte>) {
    && !(|b| >= 2 && ((b[0] == 0xFE && b[1] == 0xFF) || (b[0] == 0xFF && b[1] == 0xFE)))
    && !(|b| >= 3 && b[0] == 0xEF && b[1] == 0xBB && b[2] == 0xBF)
    && !((|b| >= 4 || |b| == 2) && (b[0] == 0 || b[1] == 0))
  }

  /** strict_json_loads on bytes. */
  function StrictLoads(b: seq<byte>): Loaded {
    if !PlainUtf8(b) then OtherEncoding
    else
      match DecodeText(b)
      case None => Invalid
      case Some(t) =>
        match Parse(t)
        case None => Invalid
        case Some(v) => Value(v)
  }

  /** Nothing is refused but surrogates. */
  lemma BytesExist(v: Json)
    requires Dicts(v)
    ensures CanonicalBytes(v).Some? <==> Scalar(v)
  {
    CanonKeeps(v);
    WriteEncodable(Canon(v));
  }

  /** No CR, LF or other control byte, so the bytes are one line. */
  lemma OneLine(v: Json, b: byte)
    requires CanonicalBytes(v).Some? && b in CanonicalBytes(v).value
    ensures b >= 0x20
  {
    if b < 0x80 {
      LowBytes(Write(Canon(v), false), b);
      WrittenChars(Canon(v), false, b);
    }
  }

  lemma CanonicalIsPlain(v: Json)
    requires CanonicalBytes(v).Some?
    ensures PlainUtf8(CanonicalBytes(v).value)
  {
    var t, b := Write(Canon(v), false), CanonicalBytes(v).value;
    FirstChar(Canon(v), false);
    assert b[0] == t[0];
    assert b[0] in b;
    OneLine(v, b[0]);
    if |b| >= 2 {
      assert b[1] in b;
      OneLine(v, b[1]);
    }
  }

  /** Reading undoes writing, up to key order. */
  lemma LoadsUndoesDumps(v: Json)
    requires Dicts(v) && CanonicalBytes(v).Some?
    ensures StrictLoads(CanonicalBytes(v).value) == Value(Canon(v))
    ensures Same(v, Canon(v))
  {
    CanonicalIsPlain(v);
    CanonKeeps(v);
    TextRoundTrip(Write(Canon(v), false));
    ParseUndoesWrite(Canon(v), false);
    SameIffCanon(v, Canon(v));
  }

  /** Equal bytes are equal values and equal values, keys in any order, are
      equal bytes. */
  lemma BytesDecideEquality(v: Json, w: Json)
    requires Dicts(v) && Dicts(w) && CanonicalBytes(v).Some? && CanonicalBytes(w).Some?
    ensures CanonicalBytes(v) == CanonicalBytes(w) <==> Same(v, w)
  {
    LoadsUndoesDumps(v);
    LoadsUndoesDumps(w);
    SameIffCanon(v, w);
  }
}
