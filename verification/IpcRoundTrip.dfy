/** Every decoder undoes its encoder, and says exactly which limits it adds. */
module IpcRoundTrip {
  import opened Options
  import opened Bytes
  import opened Utf8
  import opened JsonText
  import opened JsonObjects
  import opened Ipc
  import opened IpcMessages

  // ---------------------------------------------------------------- round trips

  predicate Plain(f: Field) {
    IsAscii(f.key) && (f.value.Int? || (f.value.Str? && Encodable(f.value.s)))
  }

  /** Distinct by length or by first character. */
  predicate Apart(a: Text, b: Text) {
    |a| != |b| || (a != [] && a[0] != b[0])
  }

  predicate AllApart(fields: seq<Field>) {
    forall i, j | 0 <= i < j < |fields| :: Apart(fields[i].key, fields[j].key)
  }

  lemma PlainHeader(fields: seq<Field>)
    requires AllApart(fields) && forall i | 0 <= i < |fields| :: Plain(fields[i])
    ensures HeaderFields(fields)
  {
    forall f | f in fields ensures Unpaired(f.key) && Dicts(f.value) && Readable(f.value) {
      AsciiIsUnpaired(f.key);
      if f.value.Str? {
        EncodableIsUnpaired(f.value.s);
      }
    }
  }

  /** The message as its decoder opens it: each field under its own name. */
  lemma Opens(op: Text, fields: seq<Field>, names: seq<Text>, payload: seq<byte>, maxPayload: nat) returns (header: seq<Field>)
    requires AllApart(fields) && forall i | 0 <= i < |fields| :: Plain(fields[i])
    requires |names| == |fields| && forall i | 0 <= i < |fields| :: names[i] == fields[i].key
    requires EncodeFrame(op, fields, payload).Ok?
    ensures header == SentHeader(op, fields, |payload|)
    ensures Open(EncodeFrame(op, fields, payload).value, maxPayload, op, names)
            == if |payload| <= maxPayload then Ok(Frame(header, payload)) else Refused
    ensures forall i | 0 <= i < |fields| :: Lookup(header, names[i]) == Some(fields[i].value)
  {
    header := SentHeader(op, fields, |payload|);
    PlainHeader(fields);
    assert KeysOf(fields) == names;
    OpenRoundTrip(op, fields, payload, maxPayload);
    forall i | 0 <= i < |fields| ensures Lookup(header, names[i]) == Some(fields[i].value) {
      assert fields[i] in fields;
    }
  }

  lemma ReadyRoundTrip(pid: int)
    requires EncodeReady(pid).Ok?
    ensures DecodeReady(EncodeReady(pid).value) == if pid == 0 then Refused else Ok(pid)
  {
    hide EncodeFrame, Open;
    var names := [PID];
    var header := Opens(READY_OP, [Field(PID, Int(pid))], names, [], 0);
    assert names[0] == PID;
  }

  lemma SimpleRoundTrip(op: Text)
    requires EncodeSimple(op).Ok?
    ensures DecodeSimple(EncodeSimple(op).value, op).Ok?
  {
    hide EncodeFrame, Open;
    var header := Opens(op, [], [], [], 0);
  }

  lemma GenerationRoundTrip(op: Text, generation: int)
    requires EncodeGeneration(op, generation).Ok?
    ensures DecodeGeneration(EncodeGeneration(op, generation).value, op) == Ok(generation)
  {
    hide EncodeFrame, Open;
    var names := [GENERATION];
    var header := Opens(op, [Field(GENERATION, Int(generation))], names, [], 0);
    assert names[0] == GENERATION;
  }

  // ---------------------------------------------------------------- load

  lemma NamesArePlain()
    ensures IsAscii(GENERATION) && IsAscii(CODE) && IsAscii(MESSAGE) && IsAscii(REQUEST_ID) && IsAscii(COLS) && IsAscii(ROWS)
    ensures IsAscii(BATCH) && IsAscii(ITERATIONS) && IsAscii(X_BYTES) && IsAscii(Y_BYTES)
  {
  }

  lemma LoadNamesArePlain()
    ensures IsAscii(MAX_UNCOMPRESSED_BYTES) && IsAscii(MODEL_KIND) && IsAscii(RUNTIME_ABI)
  {
  }

  lemma LoadFieldsApart(generation: nat, kind: Text, abi: Text, maxUncompressed: nat)
    ensures AllApart(LoadFields(generation, kind, abi, maxUncompressed))
  {
  }

  lemma LoadFieldsPlain(generation: nat, kind: Text, abi: Text, maxUncompressed: nat)
    requires Encodable(kind) && Encodable(abi)
    ensures var fields := LoadFields(generation, kind, abi, maxUncompressed);
            forall i | 0 <= i < |fields| :: Plain(fields[i])
  {
    NamesArePlain();
    LoadNamesArePlain();
  }

  lemma LoadReads(f: Frame, maxModel: nat, generation: nat, kind: Text, abi: Text, maxUncompressed: nat)
    requires Lookup(f.header, GENERATION) == Some(Int(generation)) && generation <= MAX_INT
    requires Lookup(f.header, MAX_UNCOMPRESSED_BYTES) == Some(Int(maxUncompressed)) && maxUncompressed <= MAX_INT
    requires Lookup(f.header, MODEL_KIND) == Some(Str(kind)) && TextFits(kind, 256)
    requires Lookup(f.header, RUNTIME_ABI) == Some(Str(abi)) && TextFits(abi, 256)
    ensures ReadLoad(f, maxModel)
            == if f.payload != [] && 1024 <= maxUncompressed <= maxModel
               then Ok(Artifact(generation, f.payload, kind, abi, maxUncompressed))
               else Refused
  {
  }

  /** The decoder adds only its own bound on the model, packed and unpacked. */
  lemma LoadRoundTrip(generation: int, model: seq<byte>, kind: Text, abi: Text, maxUncompressed: int, maxModel: nat)
    requires EncodeLoad(generation, model, kind, abi, maxUncompressed).Ok?
    ensures DecodeLoad(EncodeLoad(generation, model, kind, abi, maxUncompressed).value, maxModel)
            == if |model| <= maxModel && 1024 <= maxUncompressed <= maxModel
               then Ok(Artifact(generation, model, kind, abi, maxUncompressed))
               else Refused
  {
    hide EncodeFrame, Open;
    LoadFieldsApart(generation, kind, abi, maxUncompressed);
    LoadFieldsPlain(generation, kind, abi, maxUncompressed);
    var fields := LoadFields(generation, kind, abi, maxUncompressed);
    var names := [GENERATION, MAX_UNCOMPRESSED_BYTES, MODEL_KIND, RUNTIME_ABI];
    var header := Opens(LOAD_ARTIFACT_OP, fields, names, model, maxModel);
    assert names[0] == GENERATION && names[1] == MAX_UNCOMPRESSED_BYTES && names[2] == MODEL_KIND && names[3] == RUNTIME_ABI;
    LoadReads(Frame(header, model), maxModel, generation, kind, abi, maxUncompressed);
  }

  // ---------------------------------------------------------------- predict and result

  lemma PredictFieldsApart(cols: nat, generation: nat, id: nat, rows: nat)
    ensures var fields := PredictFields(cols, generation, id, rows);
            AllApart(fields) && forall i | 0 <= i < |fields| :: Plain(fields[i])
  {
    NamesArePlain();
  }

  lemma PredictReads(f: Frame, id: nat, generation: nat, rows: nat, cols: nat, maxBatch: nat, maxFeatures: nat, maxValues: nat)
    requires Lookup(f.header, REQUEST_ID) == Some(Int(id)) && id <= MAX_INT
    requires Lookup(f.header, GENERATION) == Some(Int(generation)) && generation <= MAX_INT
    requires Lookup(f.header, ROWS) == Some(Int(rows)) && Lookup(f.header, COLS) == Some(Int(cols))
    requires |f.payload| == rows * cols * 4
    ensures ReadPredict(f, maxBatch, maxFeatures, maxValues)
            == if 1 <= rows <= maxBatch && 1 <= cols <= maxFeatures && rows * cols <= maxValues && Finite(f.payload)
               then Ok(Prediction(id, generation, Tensor(rows, cols, f.payload)))
               else Refused
  {
  }

  lemma PayloadWithin(rows: nat, cols: nat, maxValues: nat)
    ensures rows * cols * 4 <= maxValues * 4 <==> rows * cols <= maxValues
  {
  }

  lemma PredictRoundTrip(requestId: int, generation: int, inputs: Tensor, maxBatch: nat, maxFeatures: nat, maxValues: nat)
    requires inputs.Shaped() && EncodePredict(requestId, generation, inputs).Ok?
    ensures DecodePredict(EncodePredict(requestId, generation, inputs).value, maxBatch, maxFeatures, maxValues)
            == if 1 <= inputs.rows <= maxBatch && 1 <= inputs.cols <= maxFeatures
                  && inputs.rows * inputs.cols <= maxValues && Finite(inputs.data)
               then Ok(Prediction(requestId, generation, inputs))
               else Refused
  {
    hide EncodeFrame, Open;
    PredictFieldsApart(inputs.cols, generation, requestId, inputs.rows);
    var fields := PredictFields(inputs.cols, generation, requestId, inputs.rows);
    var names := [COLS, GENERATION, REQUEST_ID, ROWS];
    var header := Opens(PREDICT_OP, fields, names, inputs.data, maxValues * 4);
    assert names[0] == COLS && names[1] == GENERATION && names[2] == REQUEST_ID && names[3] == ROWS;
    PredictReads(Frame(header, inputs.data), requestId, generation, inputs.rows, inputs.cols, maxBatch, maxFeatures, maxValues);
    PayloadWithin(inputs.rows, inputs.cols, maxValues);
  }

  lemma ResultFieldsApart(cols: nat, id: nat, rows: nat)
    ensures var fields := ResultFields(cols, id, rows);
            AllApart(fields) && forall i | 0 <= i < |fields| :: Plain(fields[i])
  {
    NamesArePlain();
  }

  lemma ResultReads(f: Frame, id: nat, rows: nat, cols: nat, expectedId: nat, expectedBatch: nat, maxClasses: nat, maxValues: nat)
    requires Lookup(f.header, REQUEST_ID) == Some(Int(id)) && id <= MAX_INT
    requires Lookup(f.header, ROWS) == Some(Int(rows)) && Lookup(f.header, COLS) == Some(Int(cols))
    requires |f.payload| == rows * cols * 4
    ensures ReadResult(f, expectedId, expectedBatch, maxClasses, maxValues)
            == if id == expectedId && rows == expectedBatch && 1 <= cols <= maxClasses
                  && rows * cols <= maxValues && Finite(f.payload)
               then Ok(Tensor(rows, cols, f.payload))
               else Refused
  {
  }

  lemma ResultRoundTrip(requestId: int, logits: Tensor, expectedId: nat, expectedBatch: nat, maxClasses: nat, maxValues: nat)
    requires logits.Shaped() && EncodeResult(requestId, logits).Ok?
    ensures DecodeResult(EncodeResult(requestId, logits).value, expectedId, expectedBatch, maxClasses, maxValues)
            == if requestId == expectedId && logits.rows == expectedBatch && 1 <= logits.cols <= maxClasses
                  && logits.rows * logits.cols <= maxValues && Finite(logits.data)
               then Ok(logits)
               else Refused
  {
    hide EncodeFrame, Open;
    ResultFieldsApart(logits.cols, requestId, logits.rows);
    var fields := ResultFields(logits.cols, requestId, logits.rows);
    var names := [COLS, REQUEST_ID, ROWS];
    var header := Opens(RESULT_OP, fields, names, logits.data, maxValues * 4);
    assert names[0] == COLS && names[1] == REQUEST_ID && names[2] == ROWS;
    ResultReads(Frame(header, logits.data), requestId, logits.rows, logits.cols, expectedId, expectedBatch, maxClasses, maxValues);
    PayloadWithin(logits.rows, logits.cols, maxValues);
  }

  // ---------------------------------------------------------------- qualify

  lemma {:induction false} LabelsRead(labels: seq<int>)
    requires LabelsFit(labels)
    ensures |LabelBytes(labels)| == 8 * |labels| && ReadLabels(LabelBytes(labels)) == labels
  {
    if labels != [] {
      var first, later := LittleEndian(labels[0], 8), LabelBytes(labels[1..]);
      LabelsRead(labels[1..]);
      EightBytes();
      LittleEndianReads(labels[0], 8);
      assert (first + later)[..8] == first && (first + later)[8..] == later;
      assert labels == [labels[0]] + labels[1..];
    }
  }

  lemma QualifyFieldsApart(batch: nat, cols: nat, iterations: nat, rows: nat, x: nat, y: nat)
    ensures AllApart(QualifyFields(batch, cols, iterations, rows, x, y))
  {
  }

  lemma QualifyFieldsPlain(batch: nat, cols: nat, iterations: nat, rows: nat, x: nat, y: nat)
    ensures var fields := QualifyFields(batch, cols, iterations, rows, x, y);
            forall i | 0 <= i < |fields| :: Plain(fields[i])
  {
    NamesArePlain();
  }

  lemma QualifyReads(f: Frame, q: Qualification, y: seq<byte>, maxRows: nat, maxFeatures: nat, maxValues: nat, maxIterations: nat)
    requires Lookup(f.header, BATCH) == Some(Int(q.batch)) && Lookup(f.header, ITERATIONS) == Some(Int(q.iterations))
    requires Lookup(f.header, ROWS) == Some(Int(q.inputs.rows)) && Lookup(f.header, COLS) == Some(Int(q.inputs.cols))
    requires Lookup(f.header, X_BYTES) == Some(Int(|q.inputs.data|)) && Lookup(f.header, Y_BYTES) == Some(Int(|y|))
    requires f.payload == q.inputs.data + y && q.inputs.Shaped() && Finite(q.inputs.data)
    requires |y| == 8 * q.inputs.rows && ReadLabels(y) == q.labels && LabelsFit(q.labels)
    requires q.inputs.rows >= 1 && q.inputs.cols >= 1
    ensures ReadQualification(f, maxRows, maxFeatures, maxValues, maxIterations)
            == if q.inputs.rows <= maxRows && q.inputs.cols <= maxFeatures && q.inputs.rows * q.inputs.cols <= maxValues
                  && 1 <= q.iterations <= maxIterations && 1 <= q.batch <= maxRows
               then Ok(q)
               else Refused
  {
    var x := q.inputs.data;
    assert (x + y)[..|x|] == x && (x + y)[|x|..] == y;
    PayloadWithin(q.inputs.rows, q.inputs.cols, maxValues);
  }

  lemma QualifyFits(q: Qualification, maxRows: nat, maxValues: nat)
    requires q.inputs.Shaped()
    requires q.inputs.rows <= maxRows && q.inputs.rows * q.inputs.cols <= maxValues
    ensures |q.inputs.data| + 8 * q.inputs.rows <= maxValues * 4 + maxRows * 8
  {
    var area := q.inputs.rows * q.inputs.cols;
    assert |q.inputs.data| == area * 4;
  }

  /** Besides its limits on the dataset the decoder wants the batch within the row
      limit and at least one iteration, which the encoder does not ask for. */
  lemma QualificationRoundTrip(q: Qualification,
                               rowsOut: nat, featuresOut: nat, valuesOut: nat,
                               rowsIn: nat, featuresIn: nat, valuesIn: nat, maxIterations: nat)
    requires q.inputs.Shaped()
    requires EncodeQualification(q.inputs, q.labels, q.iterations, q.batch, rowsOut, featuresOut, valuesOut).Ok?
    ensures DecodeQualification(EncodeQualification(q.inputs, q.labels, q.iterations, q.batch, rowsOut, featuresOut, valuesOut).value,
                                rowsIn, featuresIn, valuesIn, maxIterations)
            == if q.inputs.rows <= rowsIn && q.inputs.cols <= featuresIn && q.inputs.rows * q.inputs.cols <= valuesIn
                  && 1 <= q.iterations <= maxIterations && 1 <= q.batch <= rowsIn
               then Ok(q)
               else Refused
  {
    hide EncodeFrame, Open, ReadQualification;
    var x, y := q.inputs.data, LabelBytes(q.labels);
    LabelsRead(q.labels);
    QualifyFieldsApart(q.batch, q.inputs.cols, q.iterations, q.inputs.rows, |x|, |y|);
    QualifyFieldsPlain(q.batch, q.inputs.cols, q.iterations, q.inputs.rows, |x|, |y|);
    var fields := QualifyFields(q.batch, q.inputs.cols, q.iterations, q.inputs.rows, |x|, |y|);
    var names := [BATCH, COLS, ITERATIONS, ROWS, X_BYTES, Y_BYTES];
    var header := Opens(QUALIFY_OP, fields, names, x + y, valuesIn * 4 + rowsIn * 8);
    assert names[0] == BATCH && names[1] == COLS && names[2] == ITERATIONS && names[3] == ROWS && names[4] == X_BYTES && names[5] == Y_BYTES;
    QualifyReads(Frame(header, x + y), q, y, rowsIn, featuresIn, valuesIn, maxIterations);
    if q.inputs.rows <= rowsIn && q.inputs.rows * q.inputs.cols <= valuesIn {
      QualifyFits(q, rowsIn, valuesIn);
    }
  }

  // ---------------------------------------------------------------- errors

  lemma TextFieldsPlain(code: Text, message: Text, key: Text, id: nat)
    requires Encodable(code) && Encodable(message) && (key == REQUEST_ID || key == GENERATION)
    ensures var fields := TextFields(code, message) + [Field(key, Int(id))];
            AllApart(fields) && forall i | 0 <= i < |fields| :: Plain(fields[i])
  {
    NamesArePlain();
  }

  lemma ErrorReads(f: Frame, key: Text, id: nat, code: Text, message: Text)
    requires Lookup(f.header, key) == Some(Int(id)) && id <= MAX_INT
    requires Lookup(f.header, CODE) == Some(Str(code)) && TextFits(code, 64)
    requires Lookup(f.header, MESSAGE) == Some(Str(message)) && TextFits(message, MAX_ERROR_TEXT)
    ensures ReadError(f, key) == Ok(ErrorReport(id, code, message))
  {
  }

  /** With exactly the identifier its decoder expects, an error that was encoded
      is read back; an empty message becomes the default. */
  lemma RequestErrorRoundTrip(op: Text, id: int, code: Text, message: Text)
    requires EncodeError(op, Some(id), None, code, message).Ok?
    ensures DecodeError(EncodeError(op, Some(id), None, code, message).value, op, true)
            == Ok(ErrorReport(id, code, OrDefault(message, BACKEND_FAILURE)))
  {
    hide EncodeFrame, Open;
    var m := OrDefault(message, BACKEND_FAILURE);
    var fields := TextFields(code, m) + [Field(REQUEST_ID, Int(id))];
    assert TextFields(code, m) + [Field(REQUEST_ID, Int(id))] + [] == fields;
    TextFieldsPlain(code, m, REQUEST_ID, id);
    var names := [CODE, MESSAGE, REQUEST_ID];
    var header := Opens(op, fields, names, [], 0);
    assert names[0] == CODE && names[1] == MESSAGE && names[2] == REQUEST_ID;
    ErrorReads(Frame(header, []), REQUEST_ID, id, code, m);
  }

  lemma LoadErrorRoundTrip(op: Text, generation: int, code: Text, message: Text)
    requires EncodeError(op, None, Some(generation), code, message).Ok?
    ensures DecodeError(EncodeError(op, None, Some(generation), code, message).value, op, false)
            == Ok(ErrorReport(generation, code, OrDefault(message, BACKEND_FAILURE)))
  {
    hide EncodeFrame, Open;
    var m := OrDefault(message, BACKEND_FAILURE);
    var fields := TextFields(code, m) + [Field(GENERATION, Int(generation))];
    assert TextFields(code, m) + [] + [Field(GENERATION, Int(generation))] == fields;
    TextFieldsPlain(code, m, GENERATION, generation);
    var names := [CODE, MESSAGE, GENERATION];
    var header := Opens(op, fields, names, [], 0);
    assert names[0] == CODE && names[1] == MESSAGE && names[2] == GENERATION;
    ErrorReads(Frame(header, []), GENERATION, generation, code, m);
  }

  lemma StartupErrorRoundTrip(code: Text, message: Text)
    requires EncodeStartupError(code, message).Ok?
    ensures DecodeStartupError(EncodeStartupError(code, message).value) == Ok((code, OrDefault(message, STARTUP_FAILED)))
  {
    hide EncodeFrame, Open;
    var m := OrDefault(message, STARTUP_FAILED);
    var fields := TextFields(code, m);
    NamesArePlain();
    var names := [CODE, MESSAGE];
    var header := Opens(STARTUP_ERROR_OP, fields, names, [], 0);
    assert names[0] == CODE && names[1] == MESSAGE;
  }
}
