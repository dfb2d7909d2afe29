/** Telemetry records: one canonical JSON object a line, carrying a stable event
    identifier; and the lines of a spool file. */
module SpoolRecords {
  import opened Options
  import opened Bytes
  import opened Utf8
  import opened JsonText
  import opened JsonCanonical
  import opened JsonObjects

  /** "_record", "event_id", "event" and "edgeai-spool-v1" */
  const RECORD: Text := [95, 114, 101, 99, 111, 114, 100]
  const EVENT_ID: Text := [101, 118, 101, 110, 116, 95, 105, 100]
  const EVENT: Text := [101, 118, 101, 110, 116]
  const MARKER: Text := [101, 100, 103, 101, 97, 105, 45, 115, 112, 111, 111, 108, 45, 118, 49]

  const LF: byte := 10
  const CR: byte := 13

  // ---------------------------------------------------------------- records

  datatype Record = Record(id: Option<Text>, event: Json)

  /** 32 lower-case hexadecimal characters. */
  predicate ValidId(id: Text) {
    |id| == 32 && forall c | c in id :: 48 <= c < 58 || 97 <= c < 103
  }

  function Envelope(id: Text, event: Json): Json {
    Obj([Field(RECORD, Str(MARKER)), Field(EVENT_ID, Str(id)), Field(EVENT, event)])
  }

  /** None when the event holds a lone surrogate. */
  function EncodeRecord(event: Json, id: Text): Option<seq<byte>> {
    CanonicalBytes(Envelope(id, event))
  }

  predicate Enveloped(fields: seq<Field>) {
    && |fields| == 3
    && Lookup(fields, RECORD) == Some(Str(MARKER))
    && Lookup(fields, EVENT_ID).Some?
    && Lookup(fields, EVENT).Some?
  }

  /** None is any exception; a legacy line has no identifier. */
  function DecodeRecord(line: seq<byte>): Option<Record> {
    match StrictLoads(line)
    case Value(v) =>
      if v.Obj? && Enveloped(v.fields) then
        var id := Lookup(v.fields, EVENT_ID).value;
        if id.Str? && ValidId(id.s) then Some(Record(Some(id.s), Lookup(v.fields, EVENT).value)) else None
      else Some(Record(None, v))
    case _ => None
  }

  lemma ValidIdEncodes(id: Text)
    requires ValidId(id)
    ensures Encodable(id)
  {
  }

  lemma ThreeFields(a: Field, b: Field, c: Field)
    requires a.key != b.key && b.key != c.key && a.key != c.key
    ensures DistinctKeys([a, b, c])
    ensures Dicts(Obj([a, b, c])) <==> Dicts(a.value) && Dicts(b.value) && Dicts(c.value)
    ensures Scalar(Obj([a, b, c]))
            <==> Encodable(a.key) && Scalar(a.value) && Encodable(b.key) && Scalar(b.value) && Encodable(c.key) && Scalar(c.value)
  {
    hide Encodable;
    var fields := [a, b, c];
    assert fields[0] == a && fields[1] == b && fields[2] == c;
  }

  lemma NamesAreDistinct()
    ensures |RECORD| == 7 && |EVENT_ID| == 8 && |EVENT| == 5
    ensures Encodable(RECORD) && Encodable(EVENT_ID) && Encodable(EVENT) && Encodable(MARKER)
  {
  }

  lemma EnvelopeIsDict(id: Text, event: Json)
    requires ValidId(id) && Dicts(event)
    ensures Dicts(Envelope(id, event)) && DistinctKeys(Envelope(id, event).fields)
    ensures Scalar(Envelope(id, event)) <==> Scalar(event)
  {
    ValidIdEncodes(id);
    NamesAreDistinct();
    hide Encodable, ValidId;
    ThreeFields(Field(RECORD, Str(MARKER)), Field(EVENT_ID, Str(id)), Field(EVENT, event));
  }

  lemma RecordExists(event: Json, id: Text)
    requires ValidId(id) && Dicts(event)
    ensures EncodeRecord(event, id).Some? <==> Scalar(event)
  {
    hide CanonicalBytes, Envelope;
    EnvelopeIsDict(id, event);
    BytesExist(Envelope(id, event));
  }

  /** What was appended is what a flush reads: the identifier and the event. */
  lemma RecordRoundTrip(event: Json, id: Text)
    requires ValidId(id) && Dicts(event) && EncodeRecord(event, id).Some?
    ensures DecodeRecord(EncodeRecord(event, id).value) == Some(Record(Some(id), Canon(event)))
    ensures Same(event, Canon(event))
  {
    hide CanonicalBytes, StrictLoads, CanonFields, Lookup, Same, DistinctKeys, Dicts, ValidId;
    var v := Envelope(id, event);
    EnvelopeIsDict(id, event);
    LoadsUndoesDumps(v);
    EnvelopeReads(id, event);
    CanonKeeps(event);
    SameIffCanon(event, Canon(event));
  }

  lemma EnvelopeReads(id: Text, event: Json)
    requires DistinctKeys(Envelope(id, event).fields)
    ensures var fields := CanonFields(Envelope(id, event).fields);
            && |fields| == 3
            && Lookup(fields, RECORD) == Some(Str(MARKER))
            && Lookup(fields, EVENT_ID) == Some(Str(id))
            && Lookup(fields, EVENT) == Some(Canon(event))
  {
    hide CanonFields, Lookup, DistinctKeys;
    var fields := Envelope(id, event).fields;
    CanonFieldsHold(fields);
    assert fields[0] in fields && fields[1] in fields && fields[2] in fields;
    SortedLookup(fields, fields[0]);
    SortedLookup(fields, fields[1]);
    SortedLookup(fields, fields[2]);
  }

  // ---------------------------------------------------------------- lines

  /** A line as the spool writes it: no terminator inside. */
  predicate CleanLine(line: seq<byte>) {
    LF !in line && CR !in line
  }

  predicate Clean(lines: seq<seq<byte>>) {
    forall l | l in lines :: CleanLine(l)
  }

  lemma RecordIsClean(event: Json, id: Text)
    requires EncodeRecord(event, id).Some?
    ensures CleanLine(EncodeRecord(event, id).value)
  {
    hide CanonicalBytes;
    var line := EncodeRecord(event, id).value;
    if LF in line {
      OneLine(Envelope(id, event), LF);
    }
    if CR in line {
      OneLine(Envelope(id, event), CR);
    }
  }

  /** The file that holds these lines. */
  function Join(lines: seq<seq<byte>>): seq<byte> {
    if lines == [] then [] else lines[0] + [LF] + Join(lines[1..])
  }

  /** bytes.splitlines(): LF, CR and CR LF all end a line; a rest without a
      terminator is a line of its own. */
  function SplitLines(b: seq<byte>): seq<seq<byte>>
    decreases |b|
  {
    if b == [] then []
    else
      var n := LineLength(b);
      [b[..n]] + SplitLines(b[n + EndLength(b, n)..])
  }

  /** bytes.splitlines(keepends=True) */
  function KeepEnds(b: seq<byte>): seq<seq<byte>>
    decreases |b|
  {
    if b == [] then []
    else
      var n := LineLength(b);
      var end := n + EndLength(b, n);
      [b[..end]] + KeepEnds(b[end..])
  }

  function LineLength(b: seq<byte>): (n: nat)
    ensures n <= |b|
    ensures b != [] && n == 0 ==> b[0] == LF || b[0] == CR
    ensures n < |b| ==> b[n] == LF || b[n] == CR
  {
    if b == [] || b[0] == LF || b[0] == CR then 0 else 1 + LineLength(b[1..])
  }

  function EndLength(b: seq<byte>, n: nat): (k: nat)
    requires n <= |b|
    ensures n + k <= |b| && (n < |b| ==> k >= 1)
  {
    if n == |b| then 0
    else if b[n] == CR && n + 1 < |b| && b[n + 1] == LF then 2
    else 1
  }

  lemma {:induction false} FirstLine(line: seq<byte>, rest: seq<byte>)
    requires CleanLine(line)
    ensures LineLength(line + [LF] + rest) == |line|
  {
    if line != [] {
      assert (line + [LF] + rest)[1..] == line[1..] + [LF] + rest;
      FirstLine(line[1..], rest);
    }
  }

  lemma SplitFirst(line: seq<byte>, rest: seq<byte>)
    requires CleanLine(line)
    ensures SplitLines(line + [LF] + rest) == [line] + SplitLines(rest)
    ensures KeepEnds(line + [LF] + rest) == [line + [LF]] + KeepEnds(rest)
  {
    var b := line + [LF] + rest;
    FirstLine(line, rest);
    assert b[..|line|] == line && b[..|line| + 1] == line + [LF] && b[|line| + 1..] == rest;
  }

  function Terminated(lines: seq<seq<byte>>): seq<seq<byte>> {
    if lines == [] then [] else [lines[0] + [LF]] + Terminated(lines[1..])
  }

  /** Splitting a spool file recovers exactly the lines that were joined. */
  lemma {:induction false} SplitUndoesJoin(lines: seq<seq<byte>>)
    requires Clean(lines)
    ensures SplitLines(Join(lines)) == lines
    ensures KeepEnds(Join(lines)) == Terminated(lines)
  {
    if lines != [] {
      assert lines[0] in lines;
      assert forall l | l in lines[1..] :: l in lines;
      SplitUndoesJoin(lines[1..]);
      SplitFirst(lines[0], Join(lines[1..]));
      assert lines == [lines[0]] + lines[1..];
    }
  }

  lemma {:induction false} JoinConcat(a: seq<seq<byte>>, b: seq<seq<byte>>)
    ensures Join(a + b) == Join(a) + Join(b)
  {
    if a == [] {
      assert a + b == b;
    } else {
      assert (a + b)[1..] == a[1..] + b;
      JoinConcat(a[1..], b);
    }
  }

  lemma JoinSnoc(lines: seq<seq<byte>>, line: seq<byte>)
    ensures Join(lines + [line]) == Join(lines) + (line + [LF])
  {
    JoinConcat(lines, [line]);
    assert [line][1..] == [];
    assert Join([line]) == line + [LF] + [];
  }
}
