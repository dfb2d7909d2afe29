/** The 4096-byte header bound: which messages can always be sent. */
module IpcSizes {
  import opened Options
  import opened Bytes
  import opened Utf8
  import opened JsonText
  import opened JsonCanonical
  import opened Ipc
  import opened IpcMessages

  // ---------------------------------------------------------------- the length of a header

  /** Every field of a header is an integer or a text. */
  predicate Flat(fields: seq<Field>) {
    forall f | f in fields :: f.value.Int? || f.value.Str?
  }

  /** Each field with the comma or brace after it. */
  function Lengths(fields: seq<Field>): nat {
    if fields == [] then 0 else |WriteField(fields[0], true)| + 1 + Lengths(fields[1..])
  }

  lemma {:induction false} WrittenLength(fields: seq<Field>)
    requires fields != []
    ensures |WriteFields(fields, true)| + 1 == Lengths(fields)
  {
    if |fields| > 1 {
      WrittenLength(fields[1..]);
    } else {
      assert Lengths(fields[1..]) == 0;
    }
  }

  lemma {:induction false} InsertLength(f: Field, fields: seq<Field>)
    ensures Lengths(Insert(f, fields)) == |WriteField(f, true)| + 1 + Lengths(fields)
  {
    if fields == [] || Less(f.key, fields[0].key) {
      assert ([f] + fields)[1..] == fields;
    } else {
      InsertLength(f, fields[1..]);
      var rest := Insert(f, fields[1..]);
      assert ([fields[0]] + rest)[1..] == rest;
    }
  }

  /** Sorting does not change the length. */
  lemma {:induction false} CanonLength(fields: seq<Field>)
    requires Flat(fields)
    ensures Lengths(CanonFields(fields)) == Lengths(fields)
    ensures |CanonFields(fields)| == |fields|
  {
    CanonFieldsHold(fields);
    if fields != [] {
      assert fields[0] in fields;
      assert CanonField(fields[0]) == fields[0];
      CanonLength(fields[1..]);
      InsertLength(fields[0], CanonFields(fields[1..]));
    }
  }

  lemma BaseIsFlat(op: Text, payload: nat)
    ensures Flat(Base(op, payload)) && |Base(op, payload)| == 4
  {
  }

  lemma HeaderLength(op: Text, fields: seq<Field>, payload: nat)
    requires Flat(fields)
    ensures |HeaderText(op, fields, payload)| == Lengths(Base(op, payload) + fields) + 1
  {
    hide WriteFields, CanonFields, Lengths, Base;
    var all := Base(op, payload) + fields;
    BaseIsFlat(op, payload);
    CanonLength(all);
    WrittenLength(CanonFields(all));
  }

  lemma {:induction false} LengthsConcat(a: seq<Field>, b: seq<Field>)
    ensures Lengths(a + b) == Lengths(a) + Lengths(b)
  {
    if a == [] {
      assert a + b == b;
    } else {
      assert (a + b)[1..] == a[1..] + b;
      LengthsConcat(a[1..], b);
    }
  }

  // ---------------------------------------------------------------- the length of a field

  predicate Unescaped(t: Text) {
    forall c | c in t :: 0x20 <= c < 0x7F && c != QUOTE && c != BACKSLASH
  }

  lemma UnescapedChar(c: Code)
    requires Unescaped([c])
    ensures Escape(c, true) == [c]
  {
    assert c in [c];
  }

  lemma {:induction false} UnescapedIsSame(t: Text)
    requires Unescaped(t)
    ensures EscapeAll(t, true) == t
  {
    hide Escape;
    if t != [] {
      assert t[0] in t;
      assert forall c | c in t[1..] :: c in t;
      UnescapedChar(t[0]);
      UnescapedIsSame(t[1..]);
      assert t == [t[0]] + t[1..];
    }
  }

  /** At worst six characters for each byte of the text's UTF-8 form. */
  lemma {:induction false} EscapeBound(t: Text)
    ensures |EscapeAll(t, true)| <= 6 * |EncodeText(t)|
  {
    if t != [] {
      EscapeBound(t[1..]);
    }
  }

  function Pow10(k: nat): nat {
    if k == 0 then 1 else 10 * Pow10(k - 1)
  }

  lemma {:induction false} DigitsBound(n: nat, k: nat)
    requires k >= 1 && n < Pow10(k)
    ensures |Digits(n)| <= k
  {
    if n >= 10 {
      DigitsBound(n / 10, k - 1);
    }
  }

  lemma NineteenDigits(n: nat)
    requires n <= MAX_INT
    ensures |Digits(n)| <= 19
  {
    assert Pow10(6) == 1_000_000 by {
      assert Pow10(3) == 1000;
    }
    assert Pow10(12) == 1_000_000_000_000 by {
      assert Pow10(9) == 1_000_000_000;
    }
    assert Pow10(18) == 1_000_000_000_000_000_000 by {
      assert Pow10(15) == 1_000_000_000_000_000;
    }
    DigitsBound(n, 19);
  }

  lemma IntFieldLength(key: Text, n: nat)
    requires Unescaped(key)
    ensures |WriteField(Field(key, Int(n)), true)| == |key| + 3 + |Digits(n)|
  {
    UnescapedIsSame(key);
  }

  lemma TextFieldLength(key: Text, t: Text)
    requires Unescaped(key)
    ensures |WriteField(Field(key, Str(t)), true)| == |key| + 5 + |EscapeAll(t, true)|
  {
    UnescapedIsSame(key);
  }

  lemma NamesAreUnescaped()
    ensures Unescaped(MAGIC) && Unescaped(OP) && Unescaped(PAYLOAD_BYTES) && Unescaped(VERSION) && Unescaped(IPC_MAGIC)
    ensures Unescaped(GENERATION) && Unescaped(CODE) && Unescaped(MESSAGE) && Unescaped(REQUEST_ID)
  {
  }

  lemma LoadNamesAreUnescaped()
    ensures Unescaped(MAX_UNCOMPRESSED_BYTES) && Unescaped(MODEL_KIND) && Unescaped(RUNTIME_ABI)
    ensures Unescaped(LOAD_ARTIFACT_OP)
  {
  }

  lemma TensorNamesAreUnescaped()
    ensures Unescaped(COLS) && Unescaped(ROWS) && Unescaped(PREDICT_OP) && Unescaped(RESULT_OP)
  {
  }

  lemma LengthsCons(f: Field, later: seq<Field>)
    ensures Lengths([f] + later) == |WriteField(f, true)| + 1 + Lengths(later)
    ensures Lengths([]) == 0
  {
    assert ([f] + later)[1..] == later;
  }

  lemma FewFields(a: Field, b: Field, c: Field, d: Field)
    ensures Lengths([a, b]) == |WriteField(a, true)| + |WriteField(b, true)| + 2
    ensures Lengths([a, b, c]) == |WriteField(a, true)| + |WriteField(b, true)| + |WriteField(c, true)| + 3
    ensures Lengths([a, b, c, d])
            == |WriteField(a, true)| + |WriteField(b, true)| + |WriteField(c, true)| + |WriteField(d, true)| + 4
  {
    hide WriteField, Lengths;
    LengthsCons(a, [b, c, d]);
    LengthsCons(a, [b, c]);
    LengthsCons(a, [b]);
    LengthsCons(b, [c, d]);
    LengthsCons(b, [c]);
    LengthsCons(b, []);
    LengthsCons(c, [d]);
    LengthsCons(c, []);
    LengthsCons(d, []);
    assert [a, b, c, d] == [a] + [b, c, d] && [a, b, c] == [a] + [b, c] && [a, b] == [a] + [b];
    assert [b, c, d] == [b] + [c, d] && [b, c] == [b] + [c] && [b] == [b] + [];
    assert [c, d] == [c] + [d] && [c] == [c] + [] && [d] == [d] + [];
  }

  lemma BaseLength(op: Text, payload: nat)
    ensures Lengths(Base(op, payload)) == 52 + |EscapeAll(op, true)| + |Digits(payload)|
  {
    hide WriteField, EscapeAll, Lengths;
    NamesAreUnescaped();
    TextFieldLength(MAGIC, IPC_MAGIC);
    UnescapedIsSame(IPC_MAGIC);
    TextFieldLength(OP, op);
    IntFieldLength(PAYLOAD_BYTES, payload);
    IntFieldLength(VERSION, 1);
    FewFields(Field(MAGIC, Str(IPC_MAGIC)), Field(OP, Str(op)), Field(PAYLOAD_BYTES, Int(payload)), Field(VERSION, Int(1)));
  }

  /** The whole header, for fields that hold integers and texts. */
  lemma SentLength(op: Text, fields: seq<Field>, payload: nat)
    requires Flat(fields)
    ensures |HeaderText(op, fields, payload)| == 53 + |EscapeAll(op, true)| + |Digits(payload)| + Lengths(fields)
  {
    hide Base, Lengths, EscapeAll, HeaderText;
    HeaderLength(op, fields, payload);
    BaseLength(op, payload);
    LengthsConcat(Base(op, payload), fields);
  }

  // ---------------------------------------------------------------- messages that always fit

  lemma TextBound(t: Text, maximum: nat)
    requires TextFits(t, maximum)
    ensures |EscapeAll(t, true)| <= 6 * maximum
  {
    EscapeBound(t);
  }

  /** Two texts of 256 bytes take at most 1536 characters each. */
  lemma LoadLength(generation: nat, kind: Text, abi: Text, maxUncompressed: nat)
    requires generation <= MAX_INT && maxUncompressed <= MAX_INT && TextFits(kind, 256) && TextFits(abi, 256)
    ensures Flat(LoadFields(generation, kind, abi, maxUncompressed))
    ensures Lengths(LoadFields(generation, kind, abi, maxUncompressed)) <= 3183
  {
    hide WriteField, EscapeAll, Lengths, TextFits, Unescaped;
    NamesAreUnescaped();
    LoadNamesAreUnescaped();
    NineteenDigits(generation);
    NineteenDigits(maxUncompressed);
    TextBound(kind, 256);
    TextBound(abi, 256);
    IntFieldLength(GENERATION, generation);
    IntFieldLength(MAX_UNCOMPRESSED_BYTES, maxUncompressed);
    TextFieldLength(MODEL_KIND, kind);
    TextFieldLength(RUNTIME_ABI, abi);
    FewFields(Field(GENERATION, Int(generation)), Field(MAX_UNCOMPRESSED_BYTES, Int(maxUncompressed)),
              Field(MODEL_KIND, Str(kind)), Field(RUNTIME_ABI, Str(abi)));
  }

  predicate ValidKeys(op: Text, fields: seq<Field>) {
    op != [] && IsAscii(op) && |op| <= 32 && forall f | f in fields :: f.key !in RESERVED && f.key != []
  }

  lemma FitsWhenShort(op: Text, fields: seq<Field>, payload: seq<byte>)
    requires ValidKeys(op, fields) && Flat(fields)
    ensures EncodeFrame(op, fields, payload).Ok?
            <==> 53 + |EscapeAll(op, true)| + |Digits(|payload|)| + Lengths(fields) <= MAX_HEADER_BYTES
  {
    hide HeaderText, Lengths, EscapeAll, Digits;
    SentLength(op, fields, |payload|);
  }

  lemma LoadKeys(generation: nat, kind: Text, abi: Text, maxUncompressed: nat)
    ensures ValidKeys(LOAD_ARTIFACT_OP, LoadFields(generation, kind, abi, maxUncompressed))
  {
  }

  /** A load message is refused only for its arguments, never for its length.
      A bytes object is shorter than 2^63. */
  lemma LoadAlwaysFits(generation: int, model: seq<byte>, kind: Text, abi: Text, maxUncompressed: int)
    requires |model| <= MAX_INT
    ensures EncodeLoad(generation, model, kind, abi, maxUncompressed).Ok?
            <==> 0 <= generation <= MAX_INT && model != [] && 0 <= maxUncompressed <= MAX_INT
                 && TextFits(kind, 256) && TextFits(abi, 256)
  {
    hide EncodeFrame, LoadFields, Lengths, EscapeAll, TextFits, ValidKeys, Flat;
    if 0 <= generation <= MAX_INT && model != [] && 0 <= maxUncompressed <= MAX_INT && TextFits(kind, 256) && TextFits(abi, 256) {
      LoadNamesAreUnescaped();
      UnescapedIsSame(LOAD_ARTIFACT_OP);
      NineteenDigits(|model|);
      LoadLength(generation, kind, abi, maxUncompressed);
      LoadKeys(generation, kind, abi, maxUncompressed);
      FitsWhenShort(LOAD_ARTIFACT_OP, LoadFields(generation, kind, abi, maxUncompressed), model);
    }
  }

  lemma TensorLengths(cols: nat, generation: nat, id: nat, rows: nat)
    requires cols <= MAX_INT31 && generation <= MAX_INT && id <= MAX_INT && rows <= MAX_INT31
    ensures Flat(PredictFields(cols, generation, id, rows)) && Lengths(PredictFields(cols, generation, id, rows)) <= 120
    ensures Flat(ResultFields(cols, id, rows)) && Lengths(ResultFields(cols, id, rows)) <= 120
  {
    hide WriteField, Lengths, Unescaped;
    NamesAreUnescaped();
    TensorNamesAreUnescaped();
    NineteenDigits(cols);
    NineteenDigits(generation);
    NineteenDigits(id);
    NineteenDigits(rows);
    var a, b, c, d := Field(COLS, Int(cols)), Field(GENERATION, Int(generation)), Field(REQUEST_ID, Int(id)), Field(ROWS, Int(rows));
    IntFieldLength(COLS, cols);
    IntFieldLength(GENERATION, generation);
    IntFieldLength(REQUEST_ID, id);
    IntFieldLength(ROWS, rows);
    FewFields(a, b, c, d);
    FewFields(a, c, d, b);
  }

  lemma TensorKeys(cols: nat, generation: nat, id: nat, rows: nat)
    ensures ValidKeys(PREDICT_OP, PredictFields(cols, generation, id, rows))
    ensures ValidKeys(RESULT_OP, ResultFields(cols, id, rows))
  {
  }

  lemma PredictAlwaysFits(requestId: int, generation: int, inputs: Tensor)
    requires |inputs.data| <= MAX_INT
    ensures EncodePredict(requestId, generation, inputs).Ok?
            <==> 0 <= requestId <= MAX_INT && 0 <= generation <= MAX_INT
                 && inputs.rows <= MAX_INT31 && inputs.cols <= MAX_INT31
  {
    hide EncodeFrame, PredictFields, Lengths, EscapeAll, ValidKeys, Flat;
    if 0 <= requestId <= MAX_INT && 0 <= generation <= MAX_INT && inputs.rows <= MAX_INT31 && inputs.cols <= MAX_INT31 {
      TensorNamesAreUnescaped();
      UnescapedIsSame(PREDICT_OP);
      NineteenDigits(|inputs.data|);
      TensorLengths(inputs.cols, generation, requestId, inputs.rows);
      TensorKeys(inputs.cols, generation, requestId, inputs.rows);
      FitsWhenShort(PREDICT_OP, PredictFields(inputs.cols, generation, requestId, inputs.rows), inputs.data);
    }
  }

  lemma ResultAlwaysFits(requestId: int, logits: Tensor)
    requires |logits.data| <= MAX_INT
    ensures EncodeResult(requestId, logits).Ok?
            <==> 0 <= requestId <= MAX_INT && logits.rows <= MAX_INT31 && logits.cols <= MAX_INT31
  {
    hide EncodeFrame, ResultFields, Lengths, EscapeAll, ValidKeys, Flat;
    if 0 <= requestId <= MAX_INT && logits.rows <= MAX_INT31 && logits.cols <= MAX_INT31 {
      TensorNamesAreUnescaped();
      UnescapedIsSame(RESULT_OP);
      NineteenDigits(|logits.data|);
      TensorLengths(logits.cols, 0, requestId, logits.rows);
      TensorKeys(logits.cols, 0, requestId, logits.rows);
      FitsWhenShort(RESULT_OP, ResultFields(logits.cols, requestId, logits.rows), logits.data);
    }
  }

  // ---------------------------------------------------------------- errors may not fit

  lemma ErrorLength(code: Text, message: Text, key: Text, id: nat)
    requires key == REQUEST_ID || key == GENERATION
    ensures var fields := TextFields(code, message) + [Field(key, Int(id))];
            Flat(fields)
            && Lengths(fields) == 37 + |EscapeAll(code, true)| + |EscapeAll(message, true)| + |Digits(id)|
    ensures Flat(TextFields(code, message))
            && Lengths(TextFields(code, message)) == 23 + |EscapeAll(code, true)| + |EscapeAll(message, true)|
  {
    hide WriteField, EscapeAll, Lengths, Unescaped;
    NamesAreUnescaped();
    TextFieldLength(CODE, code);
    TextFieldLength(MESSAGE, message);
    IntFieldLength(key, id);
    var a, b, c := Field(CODE, Str(code)), Field(MESSAGE, Str(message)), Field(key, Int(id));
    FewFields(a, b, c, c);
    assert TextFields(code, message) + [c] == [a, b, c];
  }

  lemma ErrorKeys(op: Text, code: Text, message: Text, key: Text, id: nat)
    requires op != [] && IsAscii(op) && |op| <= 32 && (key == REQUEST_ID || key == GENERATION)
    ensures ValidKeys(op, TextFields(code, message) + [Field(key, Int(id))])
  {
  }

  lemma ErrorForm(op: Text, id: nat, code: Text, message: Text)
    requires id <= MAX_INT && TextFits(code, 64) && TextFits(message, MAX_ERROR_TEXT)
    ensures EncodeError(op, Some(id), None, code, message)
            == EncodeFrame(op, TextFields(code, message) + [Field(REQUEST_ID, Int(id))], [])
    ensures EncodeError(op, None, Some(id), code, message)
            == EncodeFrame(op, TextFields(code, message) + [Field(GENERATION, Int(id))], [])
  {
    hide EncodeFrame, Encodable, EncodeText, TextFields;
    var fields := TextFields(code, message);
    assert fields + [Field(REQUEST_ID, Int(id))] + [] == fields + [Field(REQUEST_ID, Int(id))];
    assert fields + [] + [Field(GENERATION, Int(id))] == fields + [Field(GENERATION, Int(id))];
  }

  lemma ErrorFrameFitsIff(op: Text, key: Text, id: nat, code: Text, message: Text)
    requires op != [] && IsAscii(op) && |op| <= 32 && (key == REQUEST_ID || key == GENERATION)
    ensures EncodeFrame(op, TextFields(code, message) + [Field(key, Int(id))], []).Ok?
            <==> |EscapeAll(op, true)| + |EscapeAll(code, true)| + |EscapeAll(message, true)| + |Digits(id)| <= 4005
  {
    hide EncodeFrame, TextFields, Lengths, EscapeAll, ValidKeys, Flat;
    ErrorLength(code, message, key, id);
    ErrorKeys(op, code, message, key, id);
    FitsWhenShort(op, TextFields(code, message) + [Field(key, Int(id))], []);
    assert Digits(0) == [48];
  }

  /** An error for a request is sent exactly when its escaped texts and its
      number leave room: the bounds on code and message alone do not ensure it. */
  lemma ErrorFitsIff(op: Text, id: nat, code: Text, message: Text)
    requires op != [] && IsAscii(op) && |op| <= 32 && id <= MAX_INT
    requires TextFits(code, 64) && TextFits(message, MAX_ERROR_TEXT)
    ensures EncodeError(op, Some(id), None, code, message).Ok?
            <==> |EscapeAll(op, true)| + |EscapeAll(code, true)| + |EscapeAll(message, true)| + |Digits(id)| <= 4005
  {
    hide EncodeFrame, EncodeError, TextFields, EscapeAll, TextFits;
    ErrorForm(op, id, code, message);
    ErrorFrameFitsIff(op, REQUEST_ID, id, code, message);
  }

  /** The same room is left for an error about a load. */
  lemma LoadErrorFitsIff(op: Text, generation: nat, code: Text, message: Text)
    requires op != [] && IsAscii(op) && |op| <= 32 && generation <= MAX_INT
    requires TextFits(code, 64) && TextFits(message, MAX_ERROR_TEXT)
    ensures EncodeError(op, None, Some(generation), code, message).Ok?
            <==> |EscapeAll(op, true)| + |EscapeAll(code, true)| + |EscapeAll(message, true)| + |Digits(generation)| <= 4005
  {
    hide EncodeFrame, EncodeError, TextFields, EscapeAll, TextFits;
    ErrorForm(op, generation, code, message);
    ErrorFrameFitsIff(op, GENERATION, generation, code, message);
  }

  lemma StartupForm(code: Text, message: Text)
    requires TextFits(code, 64) && TextFits(message, MAX_ERROR_TEXT)
    ensures EncodeStartupError(code, message) == EncodeFrame(STARTUP_ERROR_OP, TextFields(code, message), [])
    ensures ValidKeys(STARTUP_ERROR_OP, TextFields(code, message))
    ensures Unescaped(STARTUP_ERROR_OP) && |STARTUP_ERROR_OP| == 13
  {
    hide EncodeFrame, Encodable, EncodeText;
  }

  /** A startup error carries no number and has a fixed operation. */
  lemma StartupErrorFitsIff(code: Text, message: Text)
    requires TextFits(code, 64) && TextFits(message, MAX_ERROR_TEXT)
    ensures EncodeStartupError(code, message).Ok?
            <==> |EscapeAll(code, true)| + |EscapeAll(message, true)| <= 4006
  {
    hide EncodeFrame, EncodeStartupError, TextFields, Lengths, EscapeAll, ValidKeys, Flat, TextFits, Unescaped;
    StartupForm(code, message);
    UnescapedIsSame(STARTUP_ERROR_OP);
    ErrorLength(code, message, GENERATION, 0);
    FitsWhenShort(STARTUP_ERROR_OP, TextFields(code, message), []);
    assert Digits(0) == [48];
  }

  /** A message of 4096 letters is within its own bound and cannot be sent in any
      of the three. */
  lemma LongErrorIsRefused(op: Text, id: nat)
    requires op != [] && IsAscii(op) && |op| <= 32 && id <= MAX_INT
    ensures var message: Text := seq(MAX_ERROR_TEXT, _ => 97);
            && TextFits(message, MAX_ERROR_TEXT)
            && EncodeError(op, Some(id), None, [97], message).Refused?
            && EncodeError(op, None, Some(id), [97], message).Refused?
            && EncodeStartupError([97], message).Refused?
  {
    hide EncodeError, EncodeStartupError, EscapeAll;
    var message: Text := seq(MAX_ERROR_TEXT, _ => 97);
    assert Unescaped(message) && IsAscii(message);
    UnescapedIsSame(message);
    AsciiBytes(message);
    AsciiBytes([97]);
    ErrorFitsIff(op, id, [97], message);
    LoadErrorFitsIff(op, id, [97], message);
    StartupErrorFitsIff([97], message);
  }
}
