/** The messages of the inference protocol: each encoder checks its arguments and
    writes one frame; each decoder checks everything it reads against the limits
    of the receiver. */
module IpcMessages {
  import opened Options
  import opened Bytes
  import opened Utf8
  import opened JsonText
  import opened JsonCanonical
  import opened JsonObjects
  import opened Ipc

  /** Field names, each spelled as its constant in lower case. */
  const PID: Text := [112, 105, 100]
  const GENERATION: Text := [103, 101, 110, 101, 114, 97, 116, 105, 111, 110]
  const CODE: Text := [99, 111, 100, 101]
  const MESSAGE: Text := [109, 101, 115, 115, 97, 103, 101]
  const REQUEST_ID: Text := [114, 101, 113, 117, 101, 115, 116, 95, 105, 100]
  const MAX_UNCOMPRESSED_BYTES: Text := [109, 97, 120, 95, 117, 110, 99, 111, 109, 112, 114, 101, 115, 115, 101, 100, 95, 98, 121, 116, 101, 115]
  const MODEL_KIND: Text := [109, 111, 100, 101, 108, 95, 107, 105, 110, 100]
  const RUNTIME_ABI: Text := [114, 117, 110, 116, 105, 109, 101, 95, 97, 98, 105]
  const COLS: Text := [99, 111, 108, 115]
  const ROWS: Text := [114, 111, 119, 115]
  const BATCH: Text := [98, 97, 116, 99, 104]
  const ITERATIONS: Text := [105, 116, 101, 114, 97, 116, 105, 111, 110, 115]
  const X_BYTES: Text := [120, 95, 98, 121, 116, 101, 115]
  const Y_BYTES: Text := [121, 95, 98, 121, 116, 101, 115]

  const READY_OP: Text := [114, 101, 97, 100, 121]
  const STARTUP_ERROR_OP: Text := [115, 116, 97, 114, 116, 117, 112, 95, 101, 114, 114, 111, 114]
  const LOAD_ARTIFACT_OP: Text := [108, 111, 97, 100, 95, 97, 114, 116, 105, 102, 97, 99, 116]
  const PREDICT_OP: Text := [112, 114, 101, 100, 105, 99, 116]
  const RESULT_OP: Text := [114, 101, 115, 117, 108, 116]
  const QUALIFY_OP: Text := [113, 117, 97, 108, 105, 102, 121]

  /** "backend failure" and "worker startup failed" */
  const BACKEND_FAILURE: Text := [98, 97, 99, 107, 101, 110, 100, 32, 102, 97, 105, 108, 117, 114, 101]
  const STARTUP_FAILED: Text := [119, 111, 114, 107, 101, 114, 32, 115, 116, 97, 114, 116, 117, 112, 32, 102, 97, 105, 108, 101, 100]

  const MAX_INT31: nat := 0x7FFF_FFFF
  const MAX_ERROR_TEXT: nat := 4096

  /** The frame must carry this operation and exactly these fields. */
  function Open(frame: seq<byte>, maxPayload: nat, op: Text, names: seq<Text>): Result<Frame> {
    var f :- DecodeFrame(frame, maxPayload);
    :- Need(HasExactly(f.header, names));
    :- Need(Lookup(f.header, OP) == Some(Str(op)));
    Ok(f)
  }

  function UintAt(header: seq<Field>, key: Text, maximum: int): Result<nat> {
    var v :- Require(header, key);
    Uint(v, maximum)
  }

  function TextAt(header: seq<Field>, key: Text, maximum: nat): Result<Text> {
    var v :- Require(header, key);
    TextField(v, maximum)
  }

  /** An encoded message opens as its own fields, and only for its own operation. */
  lemma OpenRoundTrip(op: Text, fields: seq<Field>, payload: seq<byte>, maxPayload: nat)
    requires HeaderFields(fields) && EncodeFrame(op, fields, payload).Ok?
    ensures Open(EncodeFrame(op, fields, payload).value, maxPayload, op, KeysOf(fields))
            == if |payload| <= maxPayload then Ok(Frame(SentHeader(op, fields, |payload|), payload)) else Refused
    ensures forall f | f in fields :: Lookup(SentHeader(op, fields, |payload|), f.key) == Some(Canon(f.value))
  {
    FrameRoundTrip(op, fields, payload, maxPayload);
    SentFields(op, fields, |payload|);
    assert Field(OP, Str(op)) in Base(op, |payload|);
  }

  /** Another operation's decoder refuses it. */
  lemma WrongOperation(op: Text, fields: seq<Field>, payload: seq<byte>, maxPayload: nat, other: Text, names: seq<Text>)
    requires HeaderFields(fields) && EncodeFrame(op, fields, payload).Ok? && op != other
    ensures Open(EncodeFrame(op, fields, payload).value, maxPayload, other, names).Refused?
  {
    FrameRoundTrip(op, fields, payload, maxPayload);
    SentFields(op, fields, |payload|);
    assert Field(OP, Str(op)) in Base(op, |payload|);
  }

  // ---------------------------------------------------------------- ready, simple and generation messages

  function EncodeReady(pid: int): Result<seq<byte>> {
    var p :- Uint(Int(pid), MAX_INT31);
    EncodeFrame(READY_OP, [Field(PID, Int(p))], [])
  }

  function DecodeReady(frame: seq<byte>): Result<nat> {
    var f :- Open(frame, 0, READY_OP, [PID]);
    var pid :- UintAt(f.header, PID, MAX_INT31);
    :- Need(pid != 0);
    Ok(pid)
  }

  function EncodeSimple(op: Text): Result<seq<byte>> {
    EncodeFrame(op, [], [])
  }

  function DecodeSimple(frame: seq<byte>, op: Text): Result<()> {
    var _ :- Open(frame, 0, op, []);
    Ok(())
  }

  function EncodeGeneration(op: Text, generation: int): Result<seq<byte>> {
    var g :- Uint(Int(generation), MAX_INT);
    EncodeFrame(op, [Field(GENERATION, Int(g))], [])
  }

  function DecodeGeneration(frame: seq<byte>, op: Text): Result<nat> {
    var f :- Open(frame, 0, op, [GENERATION]);
    UintAt(f.header, GENERATION, MAX_INT)
  }

  // ---------------------------------------------------------------- error messages

  function OrDefault(message: Text, fallback: Text): Text {
    if message == [] then fallback else message
  }

  function OptionalId(key: Text, id: Option<int>): Result<seq<Field>> {
    match id
    case None => Ok([])
    case Some(n) =>
      var m :- Uint(Int(n), MAX_INT);
      Ok([Field(key, Int(m))])
  }

  function TextFields(code: Text, message: Text): seq<Field> {
    [Field(CODE, Str(code)), Field(MESSAGE, Str(message))]
  }

  function EncodeError(op: Text, requestId: Option<int>, generation: Option<int>, code: Text, message: Text): Result<seq<byte>> {
    var c :- TextField(Str(code), 64);
    var m :- TextField(Str(OrDefault(message, BACKEND_FAILURE)), MAX_ERROR_TEXT);
    var request :- OptionalId(REQUEST_ID, requestId);
    var load :- OptionalId(GENERATION, generation);
    EncodeFrame(op, TextFields(c, m) + request + load, [])
  }

  datatype ErrorReport = ErrorReport(id: nat, code: Text, message: Text)

  function ReadError(f: Frame, idField: Text): Result<ErrorReport> {
    var id :- UintAt(f.header, idField, MAX_INT);
    var code :- TextAt(f.header, CODE, 64);
    var message :- TextAt(f.header, MESSAGE, MAX_ERROR_TEXT);
    Ok(ErrorReport(id, code, message))
  }

  function DecodeError(frame: seq<byte>, op: Text, request: bool): Result<ErrorReport> {
    var idField := if request then REQUEST_ID else GENERATION;
    var f :- Open(frame, 0, op, [CODE, MESSAGE, idField]);
    ReadError(f, idField)
  }

  function EncodeStartupError(code: Text, message: Text): Result<seq<byte>> {
    var c :- TextField(Str(code), 64);
    var m :- TextField(Str(OrDefault(message, STARTUP_FAILED)), MAX_ERROR_TEXT);
    EncodeFrame(STARTUP_ERROR_OP, TextFields(c, m), [])
  }

  function ReadStartupError(f: Frame): Result<(Text, Text)> {
    var code :- TextAt(f.header, CODE, 64);
    var message :- TextAt(f.header, MESSAGE, MAX_ERROR_TEXT);
    Ok((code, message))
  }

  function DecodeStartupError(frame: seq<byte>): Result<(Text, Text)> {
    var f :- Open(frame, 0, STARTUP_ERROR_OP, [CODE, MESSAGE]);
    ReadStartupError(f)
  }

  // ---------------------------------------------------------------- load

  datatype Artifact = Artifact(generation: nat, model: seq<byte>, kind: Text, abi: Text, maxUncompressed: nat)

  function LoadFields(generation: nat, kind: Text, abi: Text, maxUncompressed: nat): seq<Field> {
    [Field(GENERATION, Int(generation)), Field(MAX_UNCOMPRESSED_BYTES, Int(maxUncompressed)),
     Field(MODEL_KIND, Str(kind)), Field(RUNTIME_ABI, Str(abi))]
  }

  function EncodeLoad(generation: int, model: seq<byte>, kind: Text, abi: Text, maxUncompressed: int): Result<seq<byte>> {
    var g :- Uint(Int(generation), MAX_INT);
    :- Need(model != []);
    var u :- Uint(Int(maxUncompressed), MAX_INT);
    var k :- TextField(Str(kind), 256);
    var a :- TextField(Str(abi), 256);
    EncodeFrame(LOAD_ARTIFACT_OP, LoadFields(g, k, a, u), model)
  }

  function ReadLoad(f: Frame, maxModel: nat): Result<Artifact> {
    var generation :- UintAt(f.header, GENERATION, MAX_INT);
    :- Need(f.payload != []);
    var maxUncompressed :- UintAt(f.header, MAX_UNCOMPRESSED_BYTES, MAX_INT);
    :- Need(1024 <= maxUncompressed <= maxModel);
    var kind :- TextAt(f.header, MODEL_KIND, 256);
    var abi :- TextAt(f.header, RUNTIME_ABI, 256);
    Ok(Artifact(generation, f.payload, kind, abi, maxUncompressed))
  }

  function DecodeLoad(frame: seq<byte>, maxModel: nat): Result<Artifact> {
    var f :- Open(frame, maxModel, LOAD_ARTIFACT_OP, [GENERATION, MAX_UNCOMPRESSED_BYTES, MODEL_KIND, RUNTIME_ABI]);
    ReadLoad(f, maxModel)
  }

  // ---------------------------------------------------------------- tensors

  /** A rank-2 float32 array and its row-major bytes. */
  datatype Tensor = Tensor(rows: nat, cols: nat, data: seq<byte>) {
    predicate Shaped() {
      |data| == rows * cols * 4
    }
  }

  /** An IEEE 754 binary32 is infinite or NaN when its exponent bits are all ones. */
  predicate FiniteWord(data: seq<byte>, k: nat)
    requires 4 * k + 3 < |data|
  {
    data[4 * k + 3] % 128 != 127 || data[4 * k + 2] < 128
  }

  predicate Finite(data: seq<byte>) {
    forall k: nat | k < |data| / 4 :: FiniteWord(data, k)
  }

  /** rows * cols within `maximum` values and the payload exactly that long. */
  function ReadTensor(rows: nat, cols: nat, maximum: nat, data: seq<byte>): Result<Tensor> {
    if rows >= 1 && cols >= 1 && rows * cols <= maximum && |data| == rows * cols * 4 && Finite(data)
    then Ok(Tensor(rows, cols, data))
    else Refused
  }

  // ---------------------------------------------------------------- predict and result

  datatype Prediction = Prediction(requestId: nat, generation: nat, inputs: Tensor)

  function PredictFields(cols: nat, generation: nat, id: nat, rows: nat): seq<Field> {
    [Field(COLS, Int(cols)), Field(GENERATION, Int(generation)), Field(REQUEST_ID, Int(id)), Field(ROWS, Int(rows))]
  }

  function EncodePredict(requestId: int, generation: int, inputs: Tensor): Result<seq<byte>> {
    var c :- Uint(Int(inputs.cols), MAX_INT31);
    var g :- Uint(Int(generation), MAX_INT);
    var id :- Uint(Int(requestId), MAX_INT);
    var r :- Uint(Int(inputs.rows), MAX_INT31);
    EncodeFrame(PREDICT_OP, PredictFields(c, g, id, r), inputs.data)
  }

  function ReadPredict(f: Frame, maxBatch: nat, maxFeatures: nat, maxValues: nat): Result<Prediction> {
    var id :- UintAt(f.header, REQUEST_ID, MAX_INT);
    var generation :- UintAt(f.header, GENERATION, MAX_INT);
    var rows :- UintAt(f.header, ROWS, maxBatch);
    var cols :- UintAt(f.header, COLS, maxFeatures);
    var inputs :- ReadTensor(rows, cols, maxValues, f.payload);
    Ok(Prediction(id, generation, inputs))
  }

  function DecodePredict(frame: seq<byte>, maxBatch: nat, maxFeatures: nat, maxValues: nat): Result<Prediction> {
    var f :- Open(frame, maxValues * 4, PREDICT_OP, [COLS, GENERATION, REQUEST_ID, ROWS]);
    ReadPredict(f, maxBatch, maxFeatures, maxValues)
  }

  function ResultFields(cols: nat, id: nat, rows: nat): seq<Field> {
    [Field(COLS, Int(cols)), Field(REQUEST_ID, Int(id)), Field(ROWS, Int(rows))]
  }

  function EncodeResult(requestId: int, logits: Tensor): Result<seq<byte>> {
    var c :- Uint(Int(logits.cols), MAX_INT31);
    var id :- Uint(Int(requestId), MAX_INT);
    var r :- Uint(Int(logits.rows), MAX_INT31);
    EncodeFrame(RESULT_OP, ResultFields(c, id, r), logits.data)
  }

  /** An expected batch of zero is let through. */
  function ReadResult(f: Frame, expectedId: nat, expectedBatch: nat, maxClasses: nat, maxValues: nat): Result<Tensor> {
    var id :- UintAt(f.header, REQUEST_ID, MAX_INT);
    :- Need(id == expectedId);
    var rows :- UintAt(f.header, ROWS, expectedBatch);
    var cols :- UintAt(f.header, COLS, maxClasses);
    :- Need(rows == expectedBatch && cols >= 1 && rows * cols <= maxValues);
    :- Need(|f.payload| == rows * cols * 4);
    :- Need(Finite(f.payload));
    Ok(Tensor(rows, cols, f.payload))
  }

  function DecodeResult(frame: seq<byte>, expectedId: nat, expectedBatch: nat, maxClasses: nat, maxValues: nat): Result<Tensor> {
    var f :- Open(frame, maxValues * 4, RESULT_OP, [COLS, REQUEST_ID, ROWS]);
    ReadResult(f, expectedId, expectedBatch, maxClasses, maxValues)
  }

  // ---------------------------------------------------------------- qualify

  datatype Qualification = Qualification(inputs: Tensor, labels: seq<nat>, iterations: nat, batch: nat)

  predicate LabelsFit(labels: seq<int>) {
    forall i | 0 <= i < |labels| :: 0 <= labels[i] <= MAX_INT
  }

  function LabelBytes(labels: seq<int>): seq<byte>
    requires LabelsFit(labels)
  {
    if labels == [] then [] else LittleEndian(labels[0], 8) + LabelBytes(labels[1..])
  }

  /** The unsigned reading of each int64; negative ones are above MAX_INT. */
  function ReadLabels(b: seq<byte>): seq<nat> {
    if |b| < 8 then [] else [FromLittleEndian(b[..8])] + ReadLabels(b[8..])
  }

  function QualifyFields(batch: nat, cols: nat, iterations: nat, rows: nat, x: nat, y: nat): seq<Field> {
    [Field(BATCH, Int(batch)), Field(COLS, Int(cols)), Field(ITERATIONS, Int(iterations)), Field(ROWS, Int(rows)),
     Field(X_BYTES, Int(x)), Field(Y_BYTES, Int(y))]
  }

  function EncodeQualification(inputs: Tensor, labels: seq<int>, iterations: int, batch: int,
                               maxRows: nat, maxFeatures: nat, maxValues: nat): Result<seq<byte>> {
    var b :- Uint(Int(batch), MAX_INT31);
    :- Need(inputs.rows == |labels| && inputs.rows >= 1);
    :- Need(inputs.rows <= maxRows && 1 <= inputs.cols <= maxFeatures && inputs.rows * inputs.cols <= maxValues);
    :- Need(Finite(inputs.data));
    :- Need(LabelsFit(labels));
    var c :- Uint(Int(inputs.cols), MAX_INT31);
    var i :- Uint(Int(iterations), 100_000);
    var r :- Uint(Int(inputs.rows), MAX_INT31);
    var x, y := inputs.data, LabelBytes(labels);
    EncodeFrame(QUALIFY_OP, QualifyFields(b, c, i, r, |x|, |y|), x + y)
  }

  function ReadQualification(f: Frame, maxRows: nat, maxFeatures: nat, maxValues: nat, maxIterations: nat): Result<Qualification> {
    var rows :- UintAt(f.header, ROWS, maxRows);
    var cols :- UintAt(f.header, COLS, maxFeatures);
    var iterations :- UintAt(f.header, ITERATIONS, maxIterations);
    var batch :- UintAt(f.header, BATCH, maxRows);
    :- Need(rows >= 1 && cols >= 1 && rows * cols <= maxValues);
    :- Need(iterations >= 1 && batch >= 1);
    var x :- UintAt(f.header, X_BYTES, maxValues * 4);
    var y :- UintAt(f.header, Y_BYTES, maxRows * 8);
    :- Need(x == rows * cols * 4 && y == rows * 8 && |f.payload| == x + y);
    var labels := ReadLabels(f.payload[x..]);
    :- Need(Finite(f.payload[..x]) && LabelsFit(labels));
    Ok(Qualification(Tensor(rows, cols, f.payload[..x]), labels, iterations, batch))
  }

  function DecodeQualification(frame: seq<byte>, maxRows: nat, maxFeatures: nat, maxValues: nat, maxIterations: nat): Result<Qualification> {
    var f :- Open(frame, maxValues * 4 + maxRows * 8, QUALIFY_OP, [BATCH, COLS, ITERATIONS, ROWS, X_BYTES, Y_BYTES]);
    ReadQualification(f, maxRows, maxFeatures, maxValues, maxIterations)
  }
}
