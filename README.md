# AutoWeaver model-serving core, in Dafny

This project models the two pieces of logic in AutoWeaver's model-serving code.

* **The asset audit** (`tools/audit_models.py`). The `clean` function turns a free-text
  product name into a file-name key in two steps. It deletes every character that is
  neither a word character nor whitespace. It then replaces each maximal run of
  whitespace by one `_`. Each product has four artifact files: the key followed by
  `_arima_model.pkl`, `_rf_model.pkl`, `_lstm_model.h5` or `_scaler.pkl`. The audit walks
  the catalogue category by category. It lists every product that lacks at least one of
  its files, together with the kinds that are missing (module `CleanName` in
  `clean_name.dfy`, module `AuditModels` in `audit_models.dfy`).
* **The model registry and the `/predict` decision** (`app.py`). At start-up, a loop over
  the indices 1..240 loads network `model_i` into the `models` dictionary. It then loads
  the matching scaler into `scalers`. A failed load is skipped and never stops the loop.
  `predict` looks up `model_{model_id}` and answers "not found" (404) unless the key is in
  both dictionaries. Otherwise it scales the features as a 1 x n array and reshapes the
  result to (1, n', 1). It then runs the network and answers with the first element of
  the output. Any failure after the lookup gives the error answer (500). See module
  `ModelRegistry` in `model_registry.dfy`, module `Predict` in `predict.dfy` and the
  helper module `Decimal` in `decimal.dfy`.

Some things the code cannot see are parameters of the model:

* the character classes `\w` and `\s` (`CleanName.CharClasses`). The proofs assume only
  that the two classes are disjoint and that `_` is a word character;
* whether a file exists (`onDisk`);
* the loaders `load_model` and `pickle.load`: functions from a path to a handle, or to
  `None` when they raise;
* the float parser, the scaler's `transform` and the network's `predict`
  (`Predict.Oracles`): functions that return a value or an error message.

Some facts about the code are worth stating outright:

* `clean` trims nothing: leading and trailing whitespace become `_`
  (`CleanKeepsEdges`). It keeps `_` and every other word character, not only
  letters and digits.
* `app.py` serves one network plus one scaler per numeric id. No code combines the
  predictions of several models, so the model has no such combination.
* The audit's `absent` list holds the labels `"arima"`, `"rf"`, `"lstm"`, `"scaler"`.
  The model keeps the kinds themselves; `AuditModels.Label` gives each kind's label,
  and distinct kinds have distinct labels (`LabelInjective`).

## Model

| member | source | states |
|---|---|---|
| CleanName.Strip | tools/audit_models.py:8 | the first rewrite keeps only word characters and whitespace, and its result is never longer than its input |
| CleanName.StripAppend | tools/audit_models.py:8 | the first rewrite works character by character: it commutes with concatenation, so surviving characters keep their order |
| CleanName.StripKeepsAll | tools/audit_models.py:8 | a string of word characters and whitespace passes the first rewrite unchanged |
| CleanName.StripDropsAll | tools/audit_models.py:8 | a string with no word character and no whitespace is deleted entirely |
| CleanName.StripElements | tools/audit_models.py:8 | every character the first rewrite keeps comes from its input |
| CleanName.CollapseAlphabet | tools/audit_models.py:9 | collapsing a string of word characters and whitespace leaves only word characters and no whitespace |
| CleanName.Collapse | tools/audit_models.py:9 | the second rewrite is never longer than its input; its partner `CollapseIsSqueezeThenUnderscore` shows it equals `Underscore(Squeeze(s))` |
| CleanName.CollapseCopiesPrefix | tools/audit_models.py:9 | the second rewrite copies a whitespace-free prefix unchanged; with an empty rest, it leaves a whitespace-free string unchanged |
| CleanName.CollapseLeadingRun | tools/audit_models.py:9 | a leading nonempty run of whitespace becomes a single `_`, whatever its length |
| CleanName.CollapseRunIndependent | tools/audit_models.py:9 | the second rewrite gives the same result for any two nonempty whitespace runs in the same place |
| CleanName.CollapseIsSqueezeThenUnderscore | tools/audit_models.py:9 | replacing maximal runs by `_` equals dropping each whitespace character that follows another and then mapping each remaining one to `_` |
| CleanName.CollapseEndsWithUnderscore | tools/audit_models.py:9 | a string that ends with whitespace collapses to one that ends with `_` |
| CleanName.Clean | tools/audit_models.py:7-9 | `clean` is total, never longer than the name, and maps the empty name to the empty key |
| CleanName.CleanIsWordOnly | tools/audit_models.py:7-9 | every character of a key is a word character, and none is whitespace |
| CleanName.CleanIdempotent | tools/audit_models.py:7-9 | `clean(clean(x)) == clean(x)` |
| CleanName.CleanIgnoresPunctuation | tools/audit_models.py:8-9 | inserting characters that are neither word characters nor whitespace anywhere in a name does not change its key, because punctuation is removed before whitespace is collapsed |
| CleanName.CleanRunIndependent | tools/audit_models.py:8-9 | names that differ only in one nonempty whitespace run get the same key |
| CleanName.CleanKeepsEdges | tools/audit_models.py:7-9 | nothing is trimmed: a name that starts or ends with whitespace gives a key that starts or ends with `_` |
| CleanName.CleanJoinsWords | tools/audit_models.py:8-9 | two words separated by punctuation and at least one whitespace character are joined by exactly one `_` (`"a - b"` gives `"a_b"`) |
| AuditModels.LabelInjective | tools/audit_models.py:19-25 | the four labels reported in `absent` are distinct, so the labels identify the kinds |
| AuditModels.Suffix | tools/audit_models.py:20-23 | each of the four fixed suffixes starts with `_`, which joins it to the key; `SuffixesDoNotOverlap` shows no suffix ends another |
| AuditModels.Label | tools/audit_models.py:20-23 | the name of each kind is the dict key that `absent` holds, and the kind's file suffix is `_` followed by that name |
| AuditModels.ArtifactName | tools/audit_models.py:18-24 | the file of kind k is as long as the key plus the kind's suffix; `ArtifactNameInjective` shows key and kind can be read back from it |
| AuditModels.ArtifactNameInjective | tools/audit_models.py:18-24 | two artifact files coincide exactly when the kinds are equal and the two names have the same key |
| AuditModels.MissingDependsOnlyOnKey | tools/audit_models.py:18-25 | whether a file is reported missing (`not os.path.exists`) depends only on the product's key: two names with the same key have the same absent kinds |
| AuditModels.AbsentAmong | tools/audit_models.py:25 | the filter keeps exactly the listed kinds whose file does not exist |
| AuditModels.AbsentAmongOrdered | tools/audit_models.py:25 | the filter keeps the order of the list it filters |
| AuditModels.Absent | tools/audit_models.py:19-25 | kind k is in `absent` exactly when its file does not exist |
| AuditModels.AbsentOrdered | tools/audit_models.py:19-25 | the absent kinds keep the dict order arima, rf, lstm, scaler, so there are at most four of them |
| AuditModels.RankedCount | tools/audit_models.py:19-25 | a list of kinds in dict order, without repeats, has at most four kinds |
| AuditModels.ProductsListed | tools/audit_models.py:16-17 | every product of every category is visited |
| AuditModels.Products | tools/audit_models.py:16-17 | products are visited category by category, so the last category's products, in list order, come last |
| AuditModels.ProductsStep | tools/audit_models.py:16-17 | walking one more category appends its products, in list order, to those already visited |
| AuditModels.AuditCategory | tools/audit_models.py:17-27 | the inner loop appends to `missing` the entries of one category's products, in list order |
| AuditModels.Audit | tools/audit_models.py:14-27 | the loop's `missing` list equals the report for the products in category-then-product order |
| AuditModels.Gaps | tools/audit_models.py:25-27 | the report has at most one entry per product; `GapsSound`, `GapsComplete` and `GapsAppend` state which entries it holds and in what order |
| AuditModels.GapsAppend | tools/audit_models.py:16-27 | the report for consecutive products is the concatenation of their reports, so entries keep iteration order |
| AuditModels.GapsSound | tools/audit_models.py:25-27 | every reported entry carries a listed product's original name and its nonempty absent list |
| AuditModels.GapsComplete | tools/audit_models.py:25-27 | every product with at least one absent file is reported with its absent list |
| AuditModels.ReportedIffSomeFileMissing | tools/audit_models.py:25-27 | a product is reported exactly when one of its four files does not exist |
| Decimal.NatToString | app.py:15 | `str(i)` gives decimal digits only, with no leading zero unless i is 0 |
| Decimal.NatToStringInjective | app.py:15 | distinct indices are written differently |
| Decimal.NatToStringValue | app.py:15 | `str(i)` reads back as i: the digits of the rendering, read in base 10, give i |
| ModelRegistry.Key | app.py:15 | every key is `model_` followed by at least one character; `KeyInjective` shows distinct indices give distinct keys |
| ModelRegistry.LoadedModels | app.py:14-20 | after indices 1..n, `model_n` is in `models` when its network loads; `LoadedModelEntry` extends this to every index, in both directions, and `LoadedKeys` says no other key is inserted |
| ModelRegistry.LoadedScalers | app.py:19-24 | after indices 1..n, `model_n` is in `scalers` when its network and then its scaler load; `LoadedScalerEntry` extends this to every index, in both directions, and `ScalersAmongModels` relates the two dictionaries |
| ModelRegistry.KeyInjective | app.py:15 | `model_i` and `model_j` are the same key exactly when i = j |
| ModelRegistry.PathsDistinct | app.py:16-17 | each index has its own network file and its own scaler file, and no file is both a network and a scaler |
| ModelRegistry.LoadedKeys | app.py:14-20 | the only keys ever inserted into `models` are `model_i` with 1 <= i <= n (n = 240 at start-up) |
| ModelRegistry.ScalersAmongModels | app.py:19-22 | every key of `scalers` is a key of `models`, because a scaler is read only after its network is stored |
| ModelRegistry.KeyNotYetLoaded | app.py:14-15 | before index i is tried, its key is in neither dictionary |
| ModelRegistry.LoadedModelEntry | app.py:14-24 | `model_i` is in `models`, holding the loaded network, exactly when that network loads, whatever happens at other indices |
| ModelRegistry.LoadedScalerEntry | app.py:19-24 | `model_i` is in `scalers` exactly when its network and then its scaler load; a network whose scaler fails stays without a scaler |
| ModelRegistry.Registry.constructor | app.py:11-24 | start-up leaves exactly the dictionaries the per-index rules describe for 1..240, with the scaler keys among the model keys |
| ModelRegistry.Registry.LoadUpTo | app.py:14-24 | the loop over 1..n, run on empty dictionaries, leaves exactly the dictionaries the per-index rules describe for 1..n |
| ModelRegistry.Registry.TryLoad | app.py:19-24 | one `try` block: the network is stored before the scaler is read, and a failure changes nothing more |
| Predict.RequestKey | app.py:37 | every requested key starts with `model_`; `RegisteredModelFound`, `MissingModelIdNotFound` and `LeadingZeroNotFound` show which requests match a loaded key |
| Predict.Reshape | app.py:42-44 | `reshape` succeeds exactly when the new shape holds as many elements as the array, and then keeps the elements in order under the new shape |
| Predict.ParseFeatures | app.py:42 | parsing succeeds exactly when every field parses, and then gives one value per field, in field order |
| Predict.ParseFeaturesFirstError | app.py:42 | when parsing fails, the error is the message of the first field that does not parse |
| Predict.Predict | app.py:37-52 | the answer is "not found" exactly when `model_{model_id}` is missing from `models` or `scalers`, whatever the features |
| Predict.InputMatrixSize | app.py:42 | `reshape(1, -1)` of the n parsed values never fails and gives the 1 x n array of those values |
| Predict.SequenceInputSize | app.py:44 | the (1, n', 1) network input holds exactly n' values |
| Predict.PredictionShapes | app.py:42-49 | a success answer fed the scaler a (1, n) array of the n parsed fields, fed the network a (1, n', 1) array with n' the scaled column count, and returns the first output element |
| Predict.WellShapedPipelineSucceeds | app.py:42-49 | when the scaler returns one row and the network a nonempty output, the answer is that output's first element |
| Predict.ExtraRowsFail | app.py:43-44 | a scaler output with a row count other than 1 and at least one column makes the reshape fail, giving the error answer (with no column both sizes are 0 and the reshape succeeds) |
| Predict.MalformedFeatureFails | app.py:42-52 | once the model is found, a field that does not parse gives the error answer with the parser's message for the first such field; when every earlier field parses, that is the field's own message |
| Predict.TransformErrorFails | app.py:43-52 | an exception from the scaler's `transform` gives the error answer carrying its message |
| Predict.NetworkErrorFails | app.py:46-52 | an exception from the network's `predict` gives the error answer carrying its message |
| Predict.RegisteredModelFound | app.py:14-24 | after the loop over 1..n (n = 240 at start-up), model i, asked for by its number, is found exactly when its network and its scaler both loaded |
| Predict.UnregisteredKeyNotFound | app.py:37-40 | a key that is not `model_i` for some 1 <= i <= n is never found |
| Predict.MissingModelIdNotFound | app.py:35-40 | a request without `model_id` looks up `model_None` and is never found |
| Predict.LeadingZeroNotFound | app.py:37-40 | an id that starts with `0` (such as `01`) is never found, even if the model of that number loaded |

## Left out

- Flask routing, `render_template`, `jsonify` and the HTTP status codes. The answer is the abstract `Outcome`: `NotFound`, `Failed(fault)` or `Prediction(value)`.
- Reading the form. The features are given as the list of `feature` field strings, and `model_id` as an optional string.
- Float parsing and all numeric values, which are floating point. Feature values have an opaque type; only counts and shapes are tracked. The final `float(...)` conversion is not modelled.
- The exact text of numpy's exception messages. A reshape that does not fit, a missing second axis and an empty output are modelled as structured faults. Messages raised by the parser, the scaler or the network are carried as given.
- The internals of Keras `load_model` and `predict`, `pickle.load` and the scaler's `transform`. They are foreign library calls, modelled as functions that may fail. Each is assumed to give the same answer for the same input.
- The `print` of failed loads in app.py and of the report in the audit tool.
- Opening and parsing the catalogue JSON file. The catalogue is an input: the items of the loaded dictionary, as (category, products) pairs in the dictionary's order. Category names are therefore distinct; `Catalog` does not enforce this, and nothing proved depends on it.
- The file system. Existence in the models directory is a predicate on file names. `os.path.join` is written out with `/`, as on POSIX.
- The Unicode definition of `\w` and `\s`. The classes are parameters, and `CleanName.Ascii` is one instance of them.
- static/js/script.js: DOM code for a dropdown.
- Concurrency. `app.run(debug=True)` serves requests on several threads, but the handlers only read `models` and `scalers`, which nothing changes after start-up, so each request is modelled on its own. Concurrent calls into the network's `predict` are not modelled.
