/**
 * The start-up loop of app.py: for every index 1..240 it loads the network
 * `models/model_i.h5` into `models` and then the scaler
 * `models/model_i_scaler.pkl` into `scalers`, both under the key `model_i`.
 * A failure of either load is caught, reported and skipped; it never stops
 * the loop.
 *
 * The two loaders (Keras `load_model`, and `open` followed by
 * `pickle.load`) are parameters that map a path to the loaded handle, or
 * to `None` when they raise.
 */
module ModelRegistry {
  import opened Wrappers
  import opened Decimal

  /** The number of models the loop tries. */
  const ModelCount: nat := 240

  /** The key of model `i`: `f'model_{i}'`. */
  function Key(i: nat): (key: string)
    ensures |key| > 6 && key[..6] == "model_"
  {
    "model_" + NatToString(i)
  }

  /** `os.path.join('models', f'{model_name}.h5')`. */
  function ModelPath(i: nat): string {
    "models/" + Key(i) + ".h5"
  }

  /** `os.path.join('models', f'{model_name}_scaler.pkl')`. */
  function ScalerPath(i: nat): string {
    "models/" + Key(i) + "_scaler.pkl"
  }

  /** Every index has its own network file and its own scaler file, and no
      file serves as both: the loads of one index never read another
      index's files. */
  lemma PathsDistinct(i: nat, j: nat)
    ensures ModelPath(i) == ModelPath(j) <==> i == j
    ensures ScalerPath(i) == ScalerPath(j) <==> i == j
    ensures ModelPath(i) != ScalerPath(j)
  {
    var m1, m2 := ModelPath(i), ModelPath(j);
    var s1, s2 := ScalerPath(i), ScalerPath(j);
    if m1 == m2 {
      assert Key(i) == m1[7..|m1| - 3] == m2[7..|m2| - 3] == Key(j);
      KeyInjective(i, j);
    }
    if s1 == s2 {
      assert Key(i) == s1[7..|s1| - 11] == s2[7..|s2| - 11] == Key(j);
      KeyInjective(i, j);
    }
    assert m1[|m1| - 1] == '5' && s2[|s2| - 1] == 'l';
  }

  /** Distinct indices have distinct keys. */
  lemma KeyInjective(i: nat, j: nat)
    ensures Key(i) == Key(j) <==> i == j
  {
    if Key(i) == Key(j) {
      assert NatToString(i) == Key(i)[6..] == Key(j)[6..] == NatToString(j);
      NatToStringInjective(i, j);
    }
  }

  /** The `models` dictionary after the loop has run for indices 1..n. */
  function LoadedModels<M>(loadModel: string -> Option<M>, n: nat): (models: map<string, M>)
    ensures n > 0 && loadModel(ModelPath(n)).Some? ==> Key(n) in models
  {
    if n == 0 then map[]
    else
      var before := LoadedModels(loadModel, n - 1);
      match loadModel(ModelPath(n))
      case Some(m) => before[Key(n) := m]
      case None => before
  }

  /** The `scalers` dictionary after the loop has run for indices 1..n: a
      scaler is loaded only once its model has loaded. */
  function LoadedScalers<M, S>(loadModel: string -> Option<M>, loadScaler: string -> Option<S>, n: nat): (scalers: map<string, S>)
    ensures n > 0 && loadModel(ModelPath(n)).Some? && loadScaler(ScalerPath(n)).Some? ==> Key(n) in scalers
  {
    if n == 0 then map[]
    else
      var before := LoadedScalers(loadModel, loadScaler, n - 1);
      if loadModel(ModelPath(n)).None? then before
      else
        match loadScaler(ScalerPath(n))
        case Some(s) => before[Key(n) := s]
        case None => before
  }

  /** Index `i` adds to `models` of indices 1..i-1 what one `try` block
      adds. */
  lemma LoadedModelsStep<M>(loadModel: string -> Option<M>, i: nat)
    requires i >= 1
    ensures LoadedModels(loadModel, i) == match loadModel(ModelPath(i))
                                          case Some(m) => LoadedModels(loadModel, i - 1)[Key(i) := m]
                                          case None => LoadedModels(loadModel, i - 1)
  {
  }

  /** Index `i` adds to `scalers` of indices 1..i-1 what one `try` block
      adds. */
  lemma LoadedScalersStep<M, S>(loadModel: string -> Option<M>, loadScaler: string -> Option<S>, i: nat)
    requires i >= 1
    ensures LoadedScalers(loadModel, loadScaler, i)
            == if loadModel(ModelPath(i)).Some? && loadScaler(ScalerPath(i)).Some?
               then LoadedScalers(loadModel, loadScaler, i - 1)[Key(i) := loadScaler(ScalerPath(i)).value]
               else LoadedScalers(loadModel, loadScaler, i - 1)
  {
  }

  /** The only keys ever inserted into `models` are `model_i` with
      1 <= i <= n. */
  lemma {:induction false} LoadedKeys<M>(loadModel: string -> Option<M>, n: nat)
    ensures forall k :: k in LoadedModels(loadModel, n) ==> exists i :: 1 <= i <= n && k == Key(i)
  {
    if n > 0 {
      LoadedKeys(loadModel, n - 1);
    }
  }

  /** Every key of `scalers` is a key of `models`. */
  lemma {:induction false} ScalersAmongModels<M, S>(loadModel: string -> Option<M>, loadScaler: string -> Option<S>, n: nat)
    ensures LoadedScalers(loadModel, loadScaler, n).Keys <= LoadedModels(loadModel, n).Keys
  {
    if n > 0 {
      ScalersAmongModels(loadModel, loadScaler, n - 1);
      LoadedModelsStep(loadModel, n);
      LoadedScalersStep(loadModel, loadScaler, n);
    }
  }

  /** Before index `i` is tried, its key is in neither dictionary. */
  lemma KeyNotYetLoaded<M, S>(loadModel: string -> Option<M>, loadScaler: string -> Option<S>, i: nat)
    requires i >= 1
    ensures Key(i) !in LoadedModels(loadModel, i - 1)
    ensures Key(i) !in LoadedScalers(loadModel, loadScaler, i - 1)
  {
    LoadedKeys(loadModel, i - 1);
    ScalersAmongModels(loadModel, loadScaler, i - 1);
    if Key(i) in LoadedModels(loadModel, i - 1) {
      var j :| 1 <= j <= i - 1 && Key(i) == Key(j);
      KeyInjective(i, j);
    }
  }

  /** Index `i` ends up in `models` exactly when its network loads, whatever
      happens at the other indices: a failure never stops the loop. */
  lemma {:induction false} LoadedModelEntry<M, S>(loadModel: string -> Option<M>, loadScaler: string -> Option<S>, n: nat, i: nat)
    requires 1 <= i <= n
    ensures Key(i) in LoadedModels(loadModel, n) <==> loadModel(ModelPath(i)).Some?
    ensures Key(i) in LoadedModels(loadModel, n) ==>
              LoadedModels(loadModel, n)[Key(i)] == loadModel(ModelPath(i)).value
  {
    LoadedModelsStep(loadModel, n);
    if n == i {
      KeyNotYetLoaded(loadModel, loadScaler, i);
    } else {
      KeyInjective(i, n);
      LoadedModelEntry(loadModel, loadScaler, n - 1, i);
    }
  }

  /** Index `i` ends up in `scalers` exactly when its network and then its
      scaler load. So a network whose scaler fails stays in `models` without
      a scaler. */
  lemma {:induction false} LoadedScalerEntry<M, S>(loadModel: string -> Option<M>, loadScaler: string -> Option<S>, n: nat, i: nat)
    requires 1 <= i <= n
    ensures Key(i) in LoadedScalers(loadModel, loadScaler, n) <==>
              loadModel(ModelPath(i)).Some? && loadScaler(ScalerPath(i)).Some?
    ensures Key(i) in LoadedScalers(loadModel, loadScaler, n) ==>
              LoadedScalers(loadModel, loadScaler, n)[Key(i)] == loadScaler(ScalerPath(i)).value
  {
    LoadedScalersStep(loadModel, loadScaler, n);
    if n == i {
      KeyNotYetLoaded(loadModel, loadScaler, i);
    } else {
      KeyInjective(i, n);
      LoadedScalerEntry(loadModel, loadScaler, n - 1, i);
    }
  }

  /** The two dictionaries filled at start-up. */
  class Registry<M, S> {
    var models: map<string, M>
    var scalers: map<string, S>

    /** Every scaler belongs to a loaded network. */
    ghost predicate Valid()
      reads this
    {
      scalers.Keys <= models.Keys
    }

    /** The start-up of app.py: two empty dictionaries, then the loop over
        the indices 1..240. */
    constructor (loadModel: string -> Option<M>, loadScaler: string -> Option<S>)
      ensures models == LoadedModels(loadModel, ModelCount)
      ensures scalers == LoadedScalers(loadModel, loadScaler, ModelCount)
      ensures Valid()
    {
      models := map[];
      scalers := map[];
      new;
      LoadUpTo(ModelCount, loadModel, loadScaler);
      ScalersAmongModels(loadModel, loadScaler, ModelCount);
    }

    /** The loop `for i in range(1, n + 1)` of app.py, run on empty
        dictionaries (n = 240 at start-up). */
    method LoadUpTo(n: nat, loadModel: string -> Option<M>, loadScaler: string -> Option<S>)
      requires models == map[] && scalers == map[]
      modifies this
      ensures models == LoadedModels(loadModel, n)
      ensures scalers == LoadedScalers(loadModel, loadScaler, n)
    {
      var i := 1;
      while i <= n
        invariant 1 <= i <= n + 1
        invariant models == LoadedModels(loadModel, i - 1)
        invariant scalers == LoadedScalers(loadModel, loadScaler, i - 1)
      {
        LoadedModelsStep(loadModel, i);
        LoadedScalersStep(loadModel, loadScaler, i);
        TryLoad(i, loadModel, loadScaler);
        i := i + 1;
      }
    }

    /** The `try` block for index `i`: the network is stored before the
        scaler is read, so a scaler failure leaves the network stored. */
    method TryLoad(i: nat, loadModel: string -> Option<M>, loadScaler: string -> Option<S>)
      modifies this
      ensures models == match loadModel(ModelPath(i))
                        case Some(m) => old(models)[Key(i) := m]
                        case None => old(models)
      ensures scalers == if loadModel(ModelPath(i)).Some? && loadScaler(ScalerPath(i)).Some?
                         then old(scalers)[Key(i) := loadScaler(ScalerPath(i)).value]
                         else old(scalers)
      ensures old(Valid()) ==> Valid()
    {
      match loadModel(ModelPath(i)) {
        case None =>
        case Some(m) =>
          models := models[Key(i) := m];
          match loadScaler(ScalerPath(i)) {
            case None =>
            case Some(s) =>
              scalers := scalers[Key(i) := s];
          }
      }
    }
  }
}
