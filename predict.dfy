/**
 * The decision of the `/predict` handler of app.py.
 *
 * The handler builds the key `model_{model_id}` from the form field
 * `model_id` and answers "not found" (HTTP 404) unless the key is in both
 * `models` and `scalers`. Otherwise it parses the `feature` fields into a
 * 1 x n array, scales it with the scaler, reshapes the scaled array to
 * (1, n', 1) where n' is its column count, runs the network on it and
 * answers with the first element of the flattened output. Any exception
 * raised after the lookup gives the error answer (HTTP 500) carrying the
 * exception.
 *
 * Feature values are of an opaque type `V`; the float parser, the
 * scaler's `transform` and the network's `predict` are parameters that
 * may fail with a message.
 */
module Predict {
  import opened Wrappers
  import opened Decimal
  import opened ModelRegistry

  /** A numpy array: its shape and its elements in row-major order. */
  datatype NdArray<V> = NdArray(shape: seq<nat>, elements: seq<V>)

  /** The number of elements an array of the given shape holds. */
  function Size(shape: seq<nat>): nat {
    if shape == [] then 1 else shape[0] * Size(shape[1..])
  }

  /** Why a prediction failed after the model was found. */
  datatype Fault =
    | Raised(message: string)                    // raised by the parser, the scaler or the network
    | ReshapeMismatch(size: nat, shape: seq<nat>) // `reshape` to a shape of another size
    | ShapeIndexOutOfRange                       // `shape[1]` of an array with fewer than two axes
    | EmptyOutput                                // `flatten()[0]` of an empty output

  /** The three answers of the handler: 404, 500 and success. */
  datatype Outcome<V> = NotFound(modelId: Option<string>) | Failed(fault: Fault) | Prediction(value: V)

  /** The foreign calls the handler makes. */
  datatype Oracles<!M, !S, !V> = Oracles(
    parse: string -> Result<V, string>,
    transform: (S, NdArray<V>) -> Result<NdArray<V>, string>,
    predict: (M, NdArray<V>) -> Result<NdArray<V>, string>)

  /** `f'model_{model_id}'`, where a missing form field formats as `None`. */
  function RequestKey(modelId: Option<string>): (key: string)
    ensures |key| >= 6 && key[..6] == "model_"
  {
    "model_" + match modelId case None => "None" case Some(id) => id
  }

  /** `np.array(input_data, dtype=float)`: converts the fields in order and
      raises at the first one that is not a number. */
  function ParseFeatures<V>(parse: string -> Result<V, string>, raw: seq<string>): (r: Result<seq<V>, string>)
    ensures r.Ok? <==> forall i :: 0 <= i < |raw| ==> parse(raw[i]).Ok?
    ensures r.Ok? ==> |r.value| == |raw| && forall i :: 0 <= i < |raw| ==> parse(raw[i]) == Ok(r.value[i])
  {
    if raw == [] then Ok([])
    else
      match parse(raw[0])
      case Err(msg) => Err(msg)
      case Ok(x) =>
        match ParseFeatures(parse, raw[1..])
        case Err(msg) =>
          assert forall i :: 1 <= i < |raw| ==> raw[1..][i - 1] == raw[i];
          Err(msg)
        case Ok(xs) =>
          assert forall i :: 1 <= i < |raw| ==> raw[1..][i - 1] == raw[i];
          Ok([x] + xs)
  }

  /** The error is that of the first field that does not parse. */
  lemma {:induction false} ParseFeaturesFirstError<V>(parse: string -> Result<V, string>, raw: seq<string>, i: nat)
    requires i < |raw| && parse(raw[i]).Err?
    requires forall j :: 0 <= j < i ==> parse(raw[j]).Ok?
    ensures ParseFeatures(parse, raw) == Err(parse(raw[i]).error)
  {
    if i > 0 {
      assert forall j :: 0 <= j < i - 1 ==> raw[1..][j] == raw[j + 1];
      ParseFeaturesFirstError(parse, raw[1..], i - 1);
    }
  }

  /** `reshape`: succeeds exactly when the new shape holds as many elements
      as the array; the elements, in row-major order, stay as they are. */
  function Reshape<V>(a: NdArray<V>, shape: seq<nat>): (r: Result<NdArray<V>, Fault>)
    ensures r.Ok? <==> Size(shape) == |a.elements|
    ensures r.Ok? ==> r.value.shape == shape && r.value.elements == a.elements
  {
    if Size(shape) == |a.elements| then Ok(NdArray(shape, a.elements))
    else Err(ReshapeMismatch(|a.elements|, shape))
  }

  /** The `/predict` handler, after the form fields are read. */
  function Predict<M, S, V>(models: map<string, M>, scalers: map<string, S>, modelId: Option<string>,
                            features: seq<string>, o: Oracles<M, S, V>): (r: Outcome<V>)
    ensures r.NotFound? <==> RequestKey(modelId) !in models || RequestKey(modelId) !in scalers
    ensures r.NotFound? ==> r.modelId == modelId
  {
    var key := RequestKey(modelId);
    if key !in models || key !in scalers then NotFound(modelId)
    else
      match ParseFeatures(o.parse, features)
      case Err(msg) => Failed(Raised(msg))
      case Ok(xs) =>
        // `reshape(1, -1)` of the 1-D array: numpy resolves -1 to |xs|.
        match Reshape(NdArray([|xs|], xs), [1, |xs|])
        case Err(fault) => Failed(fault)
        case Ok(matrix) =>
        match o.transform(scalers[key], matrix)
        case Err(msg) => Failed(Raised(msg))
        case Ok(scaled) =>
          if |scaled.shape| < 2 then Failed(ShapeIndexOutOfRange)
          else
            match Reshape(scaled, [1, scaled.shape[1], 1])
            case Err(fault) => Failed(fault)
            case Ok(input) =>
              match o.predict(models[key], input)
              case Err(msg) => Failed(Raised(msg))
              case Ok(output) =>
                if output.elements == [] then Failed(EmptyOutput) else Prediction(output.elements[0])
  }

  // ---------------------------------------------------------------------
  // Shapes and results

  /** `reshape(1, -1)` of the parsed 1-D array never fails: it gives the
      1 x n array of the same values. */
  lemma InputMatrixSize<V>(xs: seq<V>)
    ensures Reshape(NdArray([|xs|], xs), [1, |xs|]) == Ok(NdArray([1, |xs|], xs))
  {
    var n := |xs|;
    assert [1, n][1..] == [n];
    assert [n][1..] == [];
    assert Size([n]) == n * Size([]) == n;
    assert Size([1, n]) == n;
  }

  /** The network input (1, n', 1) holds exactly n' elements. */
  lemma SequenceInputSize(c: nat)
    ensures Size([1, c, 1]) == c
  {
    assert [1, c, 1][1..] == [c, 1];
    assert [c, 1][1..] == [1];
    assert [1][1..] == [];
    assert Size([1]) == 1 * Size([]) == 1;
    assert Size([c, 1]) == c * Size([1]) == c;
  }

  /** A successful answer went through the pipeline with the shapes the
      handler builds: the scaler received the n parsed fields as a 1 x n
      array, the network received the scaled elements as a (1, n', 1)
      array, where n' is the scaled array's column count, and the answer is
      the first element of the network's output. */
  lemma PredictionShapes<M, S, V>(models: map<string, M>, scalers: map<string, S>, modelId: Option<string>,
                                  features: seq<string>, o: Oracles<M, S, V>)
    requires Predict(models, scalers, modelId, features, o).Prediction?
    ensures var key := RequestKey(modelId);
            var parsed := ParseFeatures(o.parse, features);
            && key in models && key in scalers
            && parsed.Ok? && |parsed.value| == |features|
            && var scaled := o.transform(scalers[key], NdArray([1, |features|], parsed.value));
               && scaled.Ok? && |scaled.value.shape| >= 2
               && |scaled.value.elements| == scaled.value.shape[1]
               && var output := o.predict(models[key], NdArray([1, scaled.value.shape[1], 1], scaled.value.elements));
                  && output.Ok? && output.value.elements != []
                  && Predict(models, scalers, modelId, features, o).value == output.value.elements[0]
  {
    var key := RequestKey(modelId);
    var parsed := ParseFeatures(o.parse, features);
    InputMatrixSize(parsed.value);
    var scaled := o.transform(scalers[key], NdArray([1, |features|], parsed.value));
    SequenceInputSize(scaled.value.shape[1]);
  }

  /** Conversely, when the scaler keeps the single row (its output is 1 x n')
      and the network answers with a nonempty array, the handler answers
      with the first element of that answer. */
  lemma WellShapedPipelineSucceeds<M, S, V>(models: map<string, M>, scalers: map<string, S>, modelId: Option<string>,
                                            features: seq<string>, o: Oracles<M, S, V>,
                                            xs: seq<V>, scaled: NdArray<V>, output: NdArray<V>)
    requires RequestKey(modelId) in models && RequestKey(modelId) in scalers
    requires ParseFeatures(o.parse, features) == Ok(xs)
    requires o.transform(scalers[RequestKey(modelId)], NdArray([1, |xs|], xs)) == Ok(scaled)
    requires |scaled.shape| == 2 && scaled.shape[0] == 1 && |scaled.elements| == scaled.shape[1]
    requires o.predict(models[RequestKey(modelId)], NdArray([1, scaled.shape[1], 1], scaled.elements)) == Ok(output)
    requires output.elements != []
    ensures Predict(models, scalers, modelId, features, o) == Prediction(output.elements[0])
  {
    InputMatrixSize(xs);
    SequenceInputSize(scaled.shape[1]);
  }

  /** A scaler that answers with r x n' rows, r other than 1 and at least
      one column, makes the reshape to (1, n', 1) fail: the answer is the
      error answer. (With no column, both sizes are 0 and the reshape
      succeeds.) */
  lemma ExtraRowsFail<M, S, V>(models: map<string, M>, scalers: map<string, S>, modelId: Option<string>,
                               features: seq<string>, o: Oracles<M, S, V>,
                               xs: seq<V>, scaled: NdArray<V>)
    requires RequestKey(modelId) in models && RequestKey(modelId) in scalers
    requires ParseFeatures(o.parse, features) == Ok(xs)
    requires o.transform(scalers[RequestKey(modelId)], NdArray([1, |xs|], xs)) == Ok(scaled)
    requires |scaled.shape| == 2 && scaled.shape[0] != 1 && scaled.shape[1] > 0
    requires |scaled.elements| == Size(scaled.shape)
    ensures Predict(models, scalers, modelId, features, o)
            == Failed(ReshapeMismatch(|scaled.elements|, [1, scaled.shape[1], 1]))
  {
    var r, c := scaled.shape[0], scaled.shape[1];
    InputMatrixSize(xs);
    SequenceInputSize(c);
    MatrixSize(r, c);
    assert scaled.shape == [r, c];
    OtherRowCountChangesSize(r, c);
  }

  lemma MatrixSize(r: nat, c: nat)
    ensures Size([r, c]) == r * c
  {
    assert [r, c][1..] == [c];
    assert [c][1..] == [];
    assert Size([c]) == c * Size([]) == c;
  }

  lemma OtherRowCountChangesSize(r: nat, c: nat)
    requires r != 1 && c > 0
    ensures r * c != c
  {
    if r >= 2 {
      assert r * c >= 2 * c;
    }
  }

  /** Some field is the first one that does not parse. */
  lemma {:induction false} FirstBadField<V>(parse: string -> Result<V, string>, raw: seq<string>, i: nat)
    returns (j: nat)
    requires i < |raw| && parse(raw[i]).Err?
    ensures j <= i && parse(raw[j]).Err?
    ensures forall k :: 0 <= k < j ==> parse(raw[k]).Ok?
    ensures (forall k :: 0 <= k < i ==> parse(raw[k]).Ok?) ==> j == i
    decreases i
  {
    if forall k :: 0 <= k < i ==> parse(raw[k]).Ok? {
      j := i;
    } else {
      var k :| 0 <= k < i && parse(raw[k]).Err?;
      j := FirstBadField(parse, raw, k);
    }
  }

  /** A field that is not a number gives the error answer, once the model
      is found. It carries the parser's message for the first such field:
      the message of field i itself when every field before it parses. */
  lemma MalformedFeatureFails<M, S, V>(models: map<string, M>, scalers: map<string, S>, modelId: Option<string>,
                                       features: seq<string>, o: Oracles<M, S, V>, i: nat)
    requires RequestKey(modelId) in models && RequestKey(modelId) in scalers
    requires i < |features| && o.parse(features[i]).Err?
    ensures exists j :: 0 <= j <= i && o.parse(features[j]).Err?
              && (forall k :: 0 <= k < j ==> o.parse(features[k]).Ok?)
              && Predict(models, scalers, modelId, features, o) == Failed(Raised(o.parse(features[j]).error))
    ensures (forall k :: 0 <= k < i ==> o.parse(features[k]).Ok?) ==>
              Predict(models, scalers, modelId, features, o) == Failed(Raised(o.parse(features[i]).error))
  {
    var j := FirstBadField(o.parse, features, i);
    ParseFeaturesFirstError(o.parse, features, j);
  }

  /** An exception raised by the scaler's `transform` gives the error
      answer carrying its message. */
  lemma TransformErrorFails<M, S, V>(models: map<string, M>, scalers: map<string, S>, modelId: Option<string>,
                                     features: seq<string>, o: Oracles<M, S, V>, xs: seq<V>, msg: string)
    requires RequestKey(modelId) in models && RequestKey(modelId) in scalers
    requires ParseFeatures(o.parse, features) == Ok(xs)
    requires o.transform(scalers[RequestKey(modelId)], NdArray([1, |xs|], xs)) == Err(msg)
    ensures Predict(models, scalers, modelId, features, o) == Failed(Raised(msg))
  {
    InputMatrixSize(xs);
  }

  /** An exception raised by the network's `predict` gives the error answer
      carrying its message. */
  lemma NetworkErrorFails<M, S, V>(models: map<string, M>, scalers: map<string, S>, modelId: Option<string>,
                                   features: seq<string>, o: Oracles<M, S, V>,
                                   xs: seq<V>, scaled: NdArray<V>, msg: string)
    requires RequestKey(modelId) in models && RequestKey(modelId) in scalers
    requires ParseFeatures(o.parse, features) == Ok(xs)
    requires o.transform(scalers[RequestKey(modelId)], NdArray([1, |xs|], xs)) == Ok(scaled)
    requires |scaled.shape| >= 2 && |scaled.elements| == scaled.shape[1]
    requires o.predict(models[RequestKey(modelId)], NdArray([1, scaled.shape[1], 1], scaled.elements)) == Err(msg)
    ensures Predict(models, scalers, modelId, features, o) == Failed(Raised(msg))
  {
    InputMatrixSize(xs);
    SequenceInputSize(scaled.shape[1]);
  }

  // ---------------------------------------------------------------------
  // The handler over the registry built at start-up

  /** Model i (1 <= i <= n, n = 240 at start-up), asked for by its decimal
      number, is found exactly when both its network and its scaler
      loaded. */
  lemma RegisteredModelFound<M, S, V>(loadModel: string -> Option<M>, loadScaler: string -> Option<S>, n: nat,
                                       i: nat, features: seq<string>, o: Oracles<M, S, V>)
    requires 1 <= i <= n
    ensures Predict(LoadedModels(loadModel, n), LoadedScalers(loadModel, loadScaler, n),
                    Some(NatToString(i)), features, o).NotFound?
            <==> loadModel(ModelPath(i)).None? || loadScaler(ScalerPath(i)).None?
  {
    assert RequestKey(Some(NatToString(i))) == Key(i);
    LoadedModelEntry(loadModel, loadScaler, n, i);
    LoadedScalerEntry(loadModel, loadScaler, n, i);
  }

  /** A request whose key is not `model_i` for some 1 <= i <= n (n = 240
      at start-up) is never found, whatever was loaded. */
  lemma UnregisteredKeyNotFound<M, S, V>(loadModel: string -> Option<M>, loadScaler: string -> Option<S>, n: nat,
                                         modelId: Option<string>, features: seq<string>, o: Oracles<M, S, V>)
    requires forall i :: 1 <= i <= n ==> RequestKey(modelId) != Key(i)
    ensures Predict(LoadedModels(loadModel, n), LoadedScalers(loadModel, loadScaler, n),
                    modelId, features, o).NotFound?
  {
    LoadedKeys(loadModel, n);
  }

  /** A request without `model_id` looks up `model_None`, which is never
      loaded. */
  lemma MissingModelIdNotFound<M, S, V>(loadModel: string -> Option<M>, loadScaler: string -> Option<S>, n: nat,
                                        features: seq<string>, o: Oracles<M, S, V>)
    ensures Predict(LoadedModels(loadModel, n), LoadedScalers(loadModel, loadScaler, n),
                    None, features, o).NotFound?
  {
    forall i | 1 <= i <= n
      ensures RequestKey(None) != Key(i)
    {
      assert RequestKey(None)[6] == 'N';
      assert Key(i)[6] == NatToString(i)[0];
    }
    UnregisteredKeyNotFound(loadModel, loadScaler, n, None, features, o);
  }

  /** An id that starts with `0`, such as `01` or `0`, is never found, even
      when the model of the same number loaded. */
  lemma LeadingZeroNotFound<M, S, V>(loadModel: string -> Option<M>, loadScaler: string -> Option<S>, n: nat,
                                     id: string, features: seq<string>, o: Oracles<M, S, V>)
    requires id != [] && id[0] == '0'
    ensures Predict(LoadedModels(loadModel, n), LoadedScalers(loadModel, loadScaler, n),
                    Some(id), features, o).NotFound?
  {
    forall i | 1 <= i <= n
      ensures RequestKey(Some(id)) != Key(i)
    {
      assert RequestKey(Some(id))[6] == id[0] == '0';
      assert Key(i)[6] == NatToString(i)[0] != '0';
    }
    UnregisteredKeyNotFound(loadModel, loadScaler, n, Some(id), features, o);
  }
}
