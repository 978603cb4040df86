/** The adapter over scikit-dimension estimators (md_intrinsic_dimension/compute_id.py):
    a local (per-frame) estimate with its means, and a global estimate over the whole
    projection and over its last frames. */
module ComputeId {
  import opened Common
  import opened PySeq

  /** What the two adapters return. The local adapter returns the tuple
      `(mean_all, mean_last, lid)` in that order. */
  datatype IdOutput =
    | LocalOut(meanAll: Float, meanLast: Float, series: seq<real>)
    | GlobalOut(gid: Float, gidLast: Float)

  function Sum(s: seq<real>): real
  {
    if s == [] then 0.0 else Sum(s[..|s| - 1]) + s[|s| - 1]
  }

  /** `float(np.mean(s))`: NaN for an empty sequence, the arithmetic mean otherwise. */
  function Mean(s: seq<real>): (m: Float)
    ensures m.NaN? <==> s == []
  {
    if s == [] then NaN else Finite(Sum(s) / (|s| as real))
  }

  /** A finite mean times the number of values is their sum. */
  lemma MeanScales(s: seq<real>)
    requires s != []
    ensures Mean(s).x * (|s| as real) == Sum(s)
  {
    var n := |s| as real;
    assert Mean(s).x == Sum(s) / n;
  }

  /** The sum of values lying between two bounds lies between the scaled bounds. */
  lemma {:induction false} SumBounds(s: seq<real>, lo: real, hi: real)
    requires forall i :: 0 <= i < |s| ==> lo <= s[i] <= hi
    ensures lo * (|s| as real) <= Sum(s) <= hi * (|s| as real)
  {
    if s != [] {
      SumBounds(s[..|s| - 1], lo, hi);
    }
  }

  /** A mean never leaves the range of the values it averages. */
  lemma MeanBounds(s: seq<real>, lo: real, hi: real)
    requires s != []
    requires forall i :: 0 <= i < |s| ==> lo <= s[i] <= hi
    ensures lo <= Mean(s).x <= hi
  {
    SumBounds(s, lo, hi);
    MeanScales(s);
    var n := |s| as real;
    var m := Mean(s).x;
    assert n > 0.0 && m * n == Sum(s);
    ScaleCancel(lo, m, n);
    ScaleCancel(m, hi, n);
  }

  lemma ScaleCancel(a: real, b: real, n: real)
    requires n > 0.0 && a * n <= b * n
    ensures a <= b
  {
  }

  /** `getattr(skdim.id, estimator)`: the estimator class must be named by a string and
      exist in the estimator module. */
  function EstimatorName(estimator: Value, env: Env): (r: Result<string>)
    ensures r.Ok? <==> estimator.VStr? && estimator.s in env.estimators
    ensures r.Ok? ==> r.value == estimator.s
    ensures !estimator.VStr? ==> r == Err(EstimatorNameNotString)
    ensures estimator.VStr? && estimator.s !in env.estimators ==> r == Err(UnknownEstimator(estimator.s))
  {
    if !estimator.VStr? then Err(EstimatorNameNotString)
    else if estimator.s !in env.estimators then Err(UnknownEstimator(estimator.s))
    else Ok(estimator.s)
  }

  /** `compute_local`: the estimator, built with the extra keyword arguments, gives one
      value per frame; then the mean of the trailing `last` values and the mean of all. */
  function ComputeLocal(projection: Matrix, estimator: Value, last: Value,
                        extra: map<string, Value>, env: Env): (r: Result<IdOutput>)
  {
    match EstimatorName(estimator, env)
    case Err(e) => Err(e)
    case Ok(name) =>
      match env.pointwise(name, extra, projection)
      case Err(e) => Err(e)
      case Ok(lid) =>
        match AsInt(last)
        case None => Err(LastNotInteger)
        case Some(k) => Ok(LocalOut(Mean(lid), Mean(Tail(lid, k)), lid))
  }

  /** `compute_global`: one fit on every frame, then one on the trailing `last` frames. */
  function ComputeGlobal(projection: Matrix, estimator: Value, last: Value,
                         extra: map<string, Value>, env: Env): (r: Result<IdOutput>)
  {
    match EstimatorName(estimator, env)
    case Err(e) => Err(e)
    case Ok(name) =>
      match env.globalFit(name, extra, projection)
      case Err(e) => Err(e)
      case Ok(gid) =>
        match AsInt(last)
        case None => Err(LastNotInteger)
        case Some(k) =>
          match env.globalFit(name, extra, Tail(projection, k))
          case Err(e) => Err(e)
          case Ok(gidLast) => Ok(GlobalOut(gid, gidLast))
  }

  /** Local estimation succeeds exactly when the estimator exists, produces a series and
      `last` is an integer; the series is then returned whole, `meanAll` averages all of it
      and `meanLast` averages its trailing `last` entries. */
  lemma LocalContract(projection: Matrix, estimator: Value, last: Value,
                      extra: map<string, Value>, env: Env)
    ensures var r := ComputeLocal(projection, estimator, last, extra, env);
      r.Ok? <==> estimator.VStr? && estimator.s in env.estimators
                 && env.pointwise(estimator.s, extra, projection).Ok? && AsInt(last).Some?
    ensures var r := ComputeLocal(projection, estimator, last, extra, env);
      r.Ok? ==> r.value.LocalOut?
                && Ok(r.value.series) == env.pointwise(estimator.s, extra, projection)
                && r.value.meanAll == Mean(r.value.series)
                && (r.value.meanAll.NaN? <==> r.value.series == [])
                && r.value.meanLast == Mean(Tail(r.value.series, AsInt(last).value))
    ensures !estimator.VStr? ==> ComputeLocal(projection, estimator, last, extra, env) == Err(EstimatorNameNotString)
  {
  }

  /** With `last` at least the series length (or zero), both means coincide; with a
      positive `last` smaller than the series, `meanLast` averages exactly the final
      `last` values; a negative `last` drops the first `-last` values instead. */
  lemma LocalMeanLast(projection: Matrix, estimator: Value, k: int,
                      extra: map<string, Value>, env: Env)
    requires ComputeLocal(projection, estimator, VInt(k), extra, env).Ok?
    ensures var o := ComputeLocal(projection, estimator, VInt(k), extra, env).value;
      (k == 0 || k >= |o.series| ==> o.meanLast == o.meanAll)
      && (0 < k < |o.series| ==> o.meanLast == Mean(o.series[|o.series| - k..]))
      && (k < 0 ==> o.meanLast == Mean(o.series[Min(-k, |o.series|)..]))
  {
  }

  /** Global estimation fits the same estimator twice: on every frame and on the trailing
      `last` frames. */
  lemma GlobalContract(projection: Matrix, estimator: Value, last: Value,
                       extra: map<string, Value>, env: Env)
    ensures var r := ComputeGlobal(projection, estimator, last, extra, env);
      r.Ok? ==> r.value.GlobalOut? && estimator.VStr? && estimator.s in env.estimators
                && AsInt(last).Some?
                && env.globalFit(estimator.s, extra, projection) == Ok(r.value.gid)
                && env.globalFit(estimator.s, extra, Tail(projection, AsInt(last).value)) == Ok(r.value.gidLast)
    ensures estimator.VStr? && estimator.s in env.estimators && AsInt(last).Some?
            && env.globalFit(estimator.s, extra, projection).Ok?
            && env.globalFit(estimator.s, extra, Tail(projection, AsInt(last).value)).Ok?
            ==> ComputeGlobal(projection, estimator, last, extra, env).Ok?
    ensures var r := ComputeGlobal(projection, estimator, last, extra, env);
      estimator.VStr? && estimator.s in env.estimators && env.globalFit(estimator.s, extra, projection).Err?
      ==> r == Err(env.globalFit(estimator.s, extra, projection).error)
  {
  }

  /** When the projection has no more than `last` frames, the second global fit sees the
      same frames as the first and so gives the same estimate. */
  lemma GlobalShortProjection(projection: Matrix, estimator: Value, k: int,
                              extra: map<string, Value>, env: Env)
    requires k == 0 || k >= |projection|
    requires ComputeGlobal(projection, estimator, VInt(k), extra, env).Ok?
    ensures var o := ComputeGlobal(projection, estimator, VInt(k), extra, env).value;
      o.gidLast == o.gid
  {
  }
}
