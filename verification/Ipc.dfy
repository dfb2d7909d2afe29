/** IPC frames: one line of canonical JSON header, escaped to ASCII, then raw
    payload bytes. */
module Ipc {
  import opened Options
  import opened Bytes
  import opened Utf8
  import opened JsonText
  import opened JsonParser
  import opened JsonRoundTrip
  import opened JsonCanonical
  import opened JsonObjects

  /** IPCProtocolError on the failing side. */
  datatype Result<+T> = Ok(value: T) | Refused {
    predicate IsFailure() { Refused? }
    function PropagateFailure<U>(): Result<U>
      requires Refused?
    {
      Refused
    }
    function Extract(): T
      requires Ok?
    {
      value
    }
  }

  datatype Check = Passed | Failed {
    predicate IsFailure() { Failed? }
    function PropagateFailure<U>(): Result<U>
      requires Failed?
    {
      Refused
    }
  }

  function Need(condition: bool): Check {
    if condition then Passed else Failed
  }

  const MAX_HEADER_BYTES: nat := 4096
  const MAX_INT: nat := 0x7FFF_FFFF_FFFF_FFFF
  const NEWLINE: byte := 10

  /** "magic", "op", "payload_bytes", "v" and "EDGEAI-IPC" */
  const MAGIC: Text := [109, 97, 103, 105, 99]
  const OP: Text := [111, 112]
  const PAYLOAD_BYTES: Text := [112, 97, 121, 108, 111, 97, 100, 95, 98, 121, 116, 101, 115]
  const VERSION: Text := [118]
  const IPC_MAGIC: Text := [69, 68, 71, 69, 65, 73, 45, 73, 80, 67]

  const RESERVED: seq<Text> := [MAGIC, OP, PAYLOAD_BYTES, VERSION]

  function Base(op: Text, payload: nat): seq<Field> {
    [Field(MAGIC, Str(IPC_MAGIC)), Field(OP, Str(op)), Field(PAYLOAD_BYTES, Int(payload)), Field(VERSION, Int(1))]
  }

  predicate IsAscii(t: Text) {
    forall c | c in t :: c < 0x80
  }

  function HeaderText(op: Text, fields: seq<Field>, payload: nat): Text {
    Write(Canon(Obj(Base(op, payload) + fields)), true)
  }

  function EncodeFrame(op: Text, fields: seq<Field>, payload: seq<byte>): Result<seq<byte>> {
    var header := HeaderText(op, fields, |payload|);
    :- Need(op != [] && IsAscii(op) && |op| <= 32);
    :- Need(forall f | f in fields :: f.key !in RESERVED && f.key != []);
    :- Need(|header| <= MAX_HEADER_BYTES);
    Ok(EncodeText(header) + [NEWLINE] + payload)
  }

  /** bytes.find(b"\n", 0, limit) */
  function FindNewline(b: seq<byte>, limit: nat): (r: Option<nat>)
    ensures r.Some? ==> r.value < |b| && r.value < limit && b[r.value] == NEWLINE
  {
    if b == [] || limit == 0 then None
    else if b[0] == NEWLINE then Some(0)
    else
      match FindNewline(b[1..], limit - 1)
      case None => None
      case Some(i) => Some(i + 1)
  }

  /** bytes.decode("ascii") */
  function DecodeAscii(b: seq<byte>): Result<Text> {
    match DecodeText(b)
    case None => Refused
    case Some(t) => if forall x | x in b :: x < 0x80 then Ok(t) else Refused
  }

  function Require(fields: seq<Field>, key: Text): Result<Json> {
    match Lookup(fields, key)
    case None => Refused
    case Some(v) => Ok(v)
  }

  /** _uint: True and False are not integers here. */
  function Uint(v: Json, maximum: int): (r: Result<nat>)
    ensures r.Ok? <==> v.Int? && 0 <= v.i <= maximum
    ensures r.Ok? ==> r.value == v.i
  {
    if v.Int? && 0 <= v.i <= maximum then Ok(v.i) else Refused
  }

  predicate TextFits(t: Text, maximum: nat) {
    t != [] && Encodable(t) && |EncodeText(t)| <= maximum
  }

  /** _text. */
  function TextField(v: Json, maximum: nat): (r: Result<Text>)
    ensures r.Ok? <==> v.Str? && TextFits(v.s, maximum)
    ensures r.Ok? ==> r.value == v.s
  {
    if v.Str? && TextFits(v.s, maximum) then Ok(v.s) else Refused
  }

  datatype Frame = Frame(header: seq<Field>, payload: seq<byte>)

  function DecodeFrame(frame: seq<byte>, maxPayload: nat): Result<Frame> {
    match FindNewline(frame, MAX_HEADER_BYTES + 1)
    case None => Refused
    case Some(end) =>
      :- Need(end > 0);
      var text :- DecodeAscii(frame[..end]);
      match Parse(text)
      case None => Refused
      case Some(v) =>
        :- Need(v.Obj?);
        var magic :- Require(v.fields, MAGIC);
        var op :- Require(v.fields, OP);
        var size :- Require(v.fields, PAYLOAD_BYTES);
        var version :- Require(v.fields, VERSION);
        // Python's True equals 1.
        :- Need(magic == Str(IPC_MAGIC) && (version == Int(1) || version == Bool(true)));
        var _ :- TextField(op, 32);
        var n :- Uint(size, maxPayload);
        var payload := frame[end + 1..];
        :- Need(|payload| == n);
        Ok(Frame(v.fields, payload))
  }

  /** require_fields: the reserved fields, `names`, and no others. */
  predicate HasExactly(header: seq<Field>, names: seq<Text>) {
    && (forall f | f in header :: f.key in RESERVED || f.key in names)
    && (forall n | n in RESERVED :: Lookup(header, n).Some?)
    && (forall n | n in names :: Lookup(header, n).Some?)
  }

  // ---------------------------------------------------------------- the frame round trip

  /** Header fields as a dict, with no lone surrogates that escaping would join. */
  predicate HeaderFields(fields: seq<Field>) {
    DistinctKeys(fields) && forall f | f in fields :: Unpaired(f.key) && Dicts(f.value) && Readable(f.value)
  }

  lemma {:induction false} FindsNewline(text: seq<byte>, rest: seq<byte>, limit: nat)
    requires NEWLINE !in text && |text| < limit
    ensures FindNewline(text + [NEWLINE] + rest, limit) == Some(|text|)
  {
    if text != [] {
      FindsNewline(text[1..], rest, limit - 1);
      assert (text + [NEWLINE] + rest)[1..] == text[1..] + [NEWLINE] + rest;
    }
  }

  lemma {:induction false} AsciiBytes(t: Text)
    requires IsAscii(t)
    ensures EncodeText(t) == t
  {
    if t != [] {
      forall c | c in t[1..] ensures c < 0x80 {
        assert c in t;
      }
      AsciiBytes(t[1..]);
      assert t[0] in t;
      assert t == [t[0]] + t[1..];
    }
  }

  lemma HeaderReads(all: seq<Field>)
    requires HeaderFields(all)
    ensures var t := Write(Canon(Obj(all)), true);
            && t != [] && EncodeText(t) == t && NEWLINE !in EncodeText(t)
            && DecodeAscii(EncodeText(t)) == Ok(t)
            && Parse(t) == Some(Obj(CanonFields(all)))
  {
    var header := Obj(all);
    CanonKeeps(header);
    ParseUndoesWrite(Canon(header), true);
    FirstChar(Canon(header), true);
    PrintableLine(Canon(header));
  }

  lemma PrintableLine(v: Json)
    ensures var t := Write(v, true);
            EncodeText(t) == t && NEWLINE !in EncodeText(t) && DecodeAscii(EncodeText(t)) == Ok(t)
  {
    var t := Write(v, true);
    forall c | c in t ensures 0x20 <= c < 0x7F {
      WrittenChars(v, true, c);
    }
    AsciiBytes(t);
    TextRoundTrip(t);
  }

  lemma BaseIsDistinct(op: Text, payload: nat)
    ensures DistinctKeys(Base(op, payload))
    ensures KeysOf(Base(op, payload)) == RESERVED
  {
    assert |MAGIC| == 5 && |OP| == 2 && |PAYLOAD_BYTES| == 13 && |VERSION| == 1;
  }

  /** The header on the wire. */
  function SentHeader(op: Text, fields: seq<Field>, payload: nat): seq<Field> {
    CanonFields(Base(op, payload) + fields)
  }

  predicate Sendable(op: Text, fields: seq<Field>) {
    IsAscii(op) && HeaderFields(fields) && forall f | f in fields :: f.key !in RESERVED
  }

  lemma NamesAreAscii()
    ensures IsAscii(MAGIC) && IsAscii(OP) && IsAscii(PAYLOAD_BYTES) && IsAscii(VERSION) && IsAscii(IPC_MAGIC)
  {
  }

  lemma {:induction false} EncodableIsUnpaired(t: Text)
    requires Encodable(t)
    ensures Unpaired(t)
  {
    if |t| >= 2 {
      assert t[0] in t;
      assert forall c | c in t[1..] :: c in t;
      EncodableIsUnpaired(t[1..]);
    }
  }

  lemma AsciiIsUnpaired(t: Text)
    requires IsAscii(t)
    ensures Unpaired(t)
  {
    EncodableIsUnpaired(t);
  }

  lemma BaseIsPlain(op: Text, payload: nat)
    requires IsAscii(op)
    ensures HeaderFields(Base(op, payload))
  {
    BaseIsDistinct(op, payload);
    NamesAreAscii();
    hide IsAscii, Unpaired;
    AsciiIsUnpaired(op);
    AsciiIsUnpaired(IPC_MAGIC);
    forall f | f in Base(op, payload) ensures Unpaired(f.key) && Dicts(f.value) && Readable(f.value) {
      AsciiIsUnpaired(f.key);
    }
  }

  lemma AllFields(op: Text, fields: seq<Field>, payload: nat)
    requires Sendable(op, fields)
    ensures HeaderFields(Base(op, payload) + fields)
    ensures KeysOf(Base(op, payload) + fields) == RESERVED + KeysOf(fields)
  {
    var base := Base(op, payload);
    BaseIsDistinct(op, payload);
    BaseIsPlain(op, payload);
    forall b, f | b in base && f in fields ensures b.key != f.key {
      KeysOfHold(base, b);
    }
    JoinDistinct(base, fields);
    KeysOfConcat(base, fields);
  }

  /** Each field of the message, and nothing else, is found in the header. */
  lemma SentFields(op: Text, fields: seq<Field>, payload: nat)
    requires Sendable(op, fields)
    ensures HasExactly(SentHeader(op, fields, payload), KeysOf(fields))
    ensures forall f | f in fields :: Lookup(SentHeader(op, fields, payload), f.key) == Some(Canon(f.value))
    ensures forall f | f in Base(op, payload) :: Lookup(SentHeader(op, fields, payload), f.key) == Some(Canon(f.value))
  {
    var all := Base(op, payload) + fields;
    AllFields(op, fields, payload);
    forall f | f in all ensures Lookup(CanonFields(all), f.key) == Some(Canon(f.value)) {
      SortedLookup(all, f);
    }
    forall f | f in CanonFields(all) ensures f.key in RESERVED + KeysOf(fields) {
      SortedKeysOf(all, f);
    }
    forall n | n in RESERVED + KeysOf(fields) ensures Lookup(CanonFields(all), n).Some? {
      var f := KeyOwner(all, n);
    }
  }

  lemma EncodedForm(op: Text, fields: seq<Field>, payload: seq<byte>)
    ensures var header := HeaderText(op, fields, |payload|);
            EncodeFrame(op, fields, payload)
            == if op != [] && IsAscii(op) && |op| <= 32
                  && (forall f | f in fields :: f.key !in RESERVED && f.key != [])
                  && |header| <= MAX_HEADER_BYTES
               then Ok(EncodeText(header) + [NEWLINE] + payload)
               else Refused
  {
  }

  /** Whatever encode_frame returns for fields that escaping can carry, decode_frame
      reads back as the same payload and the same header, unless the payload is over the receiver's limit. */
  lemma FrameRoundTrip(op: Text, fields: seq<Field>, payload: seq<byte>, maxPayload: nat)
    requires HeaderFields(fields) && EncodeFrame(op, fields, payload).Ok?
    ensures Sendable(op, fields)
    ensures DecodeFrame(EncodeFrame(op, fields, payload).value, maxPayload)
            == if |payload| <= maxPayload then Ok(Frame(SentHeader(op, fields, |payload|), payload)) else Refused
  {
    hide EncodeFrame, DecodeFrame, DecodeAscii, Parse, Base, Write, Canon, CanonFields, Lookup, EncodeText, HeaderFields;
    EncodedForm(op, fields, payload);
    var text := HeaderText(op, fields, |payload|);
    var header := SentHeader(op, fields, |payload|);
    AllFields(op, fields, |payload|);
    HeaderReads(Base(op, |payload|) + fields);
    SentReserved(op, fields, |payload|);
    FrameReads(EncodeText(text), text, header, op, payload, maxPayload);
  }

  lemma SentReserved(op: Text, fields: seq<Field>, payload: nat)
    requires Sendable(op, fields)
    ensures var h := SentHeader(op, fields, payload);
            && Lookup(h, MAGIC) == Some(Str(IPC_MAGIC)) && Lookup(h, OP) == Some(Str(op))
            && Lookup(h, PAYLOAD_BYTES) == Some(Int(payload)) && Lookup(h, VERSION) == Some(Int(1))
  {
    hide SentHeader, Lookup, Sendable;
    SentFields(op, fields, payload);
    var base := Base(op, payload);
    assert base[0] in base && base[1] in base && base[2] in base && base[3] in base;
  }

  lemma FrameReads(line: seq<byte>, text: Text, header: seq<Field>, op: Text, payload: seq<byte>, maxPayload: nat)
    requires 0 < |line| <= MAX_HEADER_BYTES && NEWLINE !in line
    requires DecodeAscii(line) == Ok(text) && Parse(text) == Some(Obj(header))
    requires op != [] && IsAscii(op) && |op| <= 32
    requires Lookup(header, MAGIC) == Some(Str(IPC_MAGIC)) && Lookup(header, OP) == Some(Str(op))
    requires Lookup(header, PAYLOAD_BYTES) == Some(Int(|payload|)) && Lookup(header, VERSION) == Some(Int(1))
    ensures DecodeFrame(line + [NEWLINE] + payload, maxPayload)
            == if |payload| <= maxPayload then Ok(Frame(header, payload)) else Refused
  {
    FindsNewline(line, payload, MAX_HEADER_BYTES + 1);
    var frame := line + [NEWLINE] + payload;
    assert frame[..|line|] == line && frame[|line| + 1..] == payload;
    AsciiBytes(op);
    assert TextFits(op, 32);
  }
}
