/** The trajectory-ID engine of the md package (md_intrinsic_dimension/md_intrinsic_dimension.py):
    read the settings, resolve the input molecule, compute a projection and estimate its
    intrinsic dimension locally or globally. */
module MdEngine {
  import opened Common
  import opened ComputeId
  import opened ProjectionDispatch

  /** A Python dict the engine pops keys from, so that its caller sees the change. */
  class KwargsDict {
    var entries: map<string, Value>

    constructor (entries0: map<string, Value>)
      ensures entries == entries0
    {
      entries := entries0;
    }

    /** `d.pop(key, default)` */
    method Pop(key: string, default: Value) returns (v: Value)
      modifies this
      ensures v == GetOr(old(entries), key, default)
      ensures entries == old(entries) - {key}
    {
      v := GetOr(entries, key, default);
      entries := entries - {key};
    }
  }

  /** The two keys the engine consumes; every other key is forwarded to the estimator. */
  const ConsumedKeys: set<string> := {"estimator", "last"}

  /** Projection resolution as written: the membership test in the `builtins` keys hashes
      its operand, so an array, which is unhashable, fails there before its own branch. */
  function DispatchAsWritten(mol: Molecule, pm: ProjectionMethod, pk: map<string, Value>, env: Env): Result<Matrix>
  {
    match pm
    case ByName(name) => ByNameProjection(mol, name, pk, env)
    case Prebuilt(h) => env.projectObject(h, mol)
    case Precomputed(_) => Err(Unhashable)
    case OtherObject(hashable) => if hashable then Err(InvalidProjectionMethod) else Err(Unhashable)
  }

  /** Projection resolution as its branches intend: built-in name, other string, Projection
      object, array used unchanged, otherwise TypeError. */
  function Dispatch(mol: Molecule, pm: ProjectionMethod, pk: map<string, Value>, env: Env): (r: Result<Matrix>)
    ensures pm.Precomputed? ==> r == Ok(pm.matrix)
    ensures pm.OtherObject? ==> r == Err(InvalidProjectionMethod)
    ensures !pm.Precomputed? && !pm.OtherObject? ==> r == DispatchAsWritten(mol, pm, pk, env)
  {
    match pm
    case ByName(name) => ByNameProjection(mol, name, pk, env)
    case Prebuilt(h) => env.projectObject(h, mol)
    case Precomputed(m) => Ok(m)
    case OtherObject(_) => Err(InvalidProjectionMethod)
  }

  /** Estimator routing as written: `if local` is followed by `if global / else raise`, so
      after a successful local estimate the TypeError is raised anyway. */
  function RouteAsWritten(projection: Matrix, idMethod: string, estimator: Value, last: Value,
                          rest: map<string, Value>, env: Env): Result<IdOutput>
  {
    if idMethod == "local" then
      if "projection" in rest then Err(DuplicateKeyword("projection"))
      else
        match ComputeLocal(projection, estimator, last, rest, env)
        case Err(e) => Err(e)
        case Ok(_) => Err(InvalidIdMethod(idMethod))
    else if idMethod == "global" then
      if "projection" in rest then Err(DuplicateKeyword("projection"))
      else ComputeGlobal(projection, estimator, last, rest, env)
    else Err(InvalidIdMethod(idMethod))
  }

  /** Estimator routing as intended: local, global, or TypeError. The adapters are called
      as `compute_local(projection=projection, estimator=..., last=..., **rest)`; `estimator`
      and `last` have been popped from `rest`, but a `projection` key left in it passes that
      parameter twice, and the call raises TypeError before the adapter runs. */
  function Route(projection: Matrix, idMethod: string, estimator: Value, last: Value,
                 rest: map<string, Value>, env: Env): (r: Result<IdOutput>)
    ensures idMethod == "local" && "projection" !in rest ==> r == ComputeLocal(projection, estimator, last, rest, env)
    ensures idMethod == "global" && "projection" !in rest ==> r == ComputeGlobal(projection, estimator, last, rest, env)
    ensures (idMethod == "local" || idMethod == "global") && "projection" in rest ==>
      r == Err(DuplicateKeyword("projection")) && Kind(r.error) == TypeError
    ensures idMethod != "local" && idMethod != "global" ==> r == Err(InvalidIdMethod(idMethod))
  {
    if idMethod != "local" && idMethod != "global" then Err(InvalidIdMethod(idMethod))
    else if "projection" in rest then Err(DuplicateKeyword("projection"))
    else if idMethod == "local" then ComputeLocal(projection, estimator, last, rest, env)
    else ComputeGlobal(projection, estimator, last, rest, env)
  }

  /** `intrinsic_dimension(...)` as written; `ik` is the caller's `id_kwargs` (None and an
      empty dict both read as the empty map). */
  function EstimateAsWritten(topology: string, trajectory: string, mol: Option<Molecule>,
                             pm: ProjectionMethod, idMethod: string, pk: map<string, Value>,
                             ik: map<string, Value>, env: Env): Result<IdOutput>
  {
    var estimator := GetOr(ik, "estimator", VStr("TwoNN"));
    var last := GetOr(ik, "last", VInt(100));
    match LoadInput(topology, trajectory, mol, env, "Topology", "Trajectory")
    case Err(e) => Err(e)
    case Ok(m) =>
      match DispatchAsWritten(m, pm, pk, env)
      case Err(e) => Err(e)
      case Ok(projection) => RouteAsWritten(projection, idMethod, estimator, last, ik - ConsumedKeys, env)
  }

  /** `intrinsic_dimension(...)` with the two defects corrected; the rest of the model
      uses this one. */
  function Estimate(topology: string, trajectory: string, mol: Option<Molecule>,
                    pm: ProjectionMethod, idMethod: string, pk: map<string, Value>,
                    ik: map<string, Value>, env: Env): Result<IdOutput>
  {
    var estimator := GetOr(ik, "estimator", VStr("TwoNN"));
    var last := GetOr(ik, "last", VInt(100));
    match LoadInput(topology, trajectory, mol, env, "Topology", "Trajectory")
    case Err(e) => Err(e)
    case Ok(m) =>
      match Dispatch(m, pm, pk, env)
      case Err(e) => Err(e)
      case Ok(projection) => Route(projection, idMethod, estimator, last, ik - ConsumedKeys, env)
  }

  /** `id_kwargs = id_kwargs or {}` followed by the two pops: an empty or missing dict is
      replaced by a fresh one, a non-empty one is the caller's own and loses `estimator`
      and `last`. */
  method PopSettings(idKwargs: KwargsDict?) returns (estimator: Value, last: Value, rest: map<string, Value>)
    modifies idKwargs
    ensures var ik := if idKwargs == null then map[] else old(idKwargs.entries);
      estimator == GetOr(ik, "estimator", VStr("TwoNN")) && last == GetOr(ik, "last", VInt(100))
      && rest == ik - ConsumedKeys
    ensures idKwargs != null ==> idKwargs.entries == old(idKwargs.entries) - ConsumedKeys
  {
    var kw: KwargsDict;
    if idKwargs == null || idKwargs.entries == map[] {
      kw := new KwargsDict(map[]);
    } else {
      kw := idKwargs;
    }
    estimator := kw.Pop("estimator", VStr("TwoNN"));
    last := kw.Pop("last", VInt(100));
    rest := kw.entries;
  }

  /** The engine entry point as written: pops `estimator` and `last` out of the caller's
      dict before anything else, whatever the outcome, then resolves the input, the
      projection and the id method with both defects in place. */
  method IntrinsicDimensionAsWritten(topology: string, trajectory: string, mol: Option<Molecule>,
                                     pm: ProjectionMethod, idMethod: string, projectionKwargs: map<string, Value>,
                                     idKwargs: KwargsDict?, env: Env) returns (r: Result<IdOutput>)
    modifies idKwargs
    ensures idKwargs != null ==> idKwargs.entries == old(idKwargs.entries) - ConsumedKeys
    ensures r == EstimateAsWritten(topology, trajectory, mol, pm, idMethod, projectionKwargs,
                                   if idKwargs == null then map[] else old(idKwargs.entries), env)
  {
    var estimator, last, rest := PopSettings(idKwargs);
    var loaded := LoadInput(topology, trajectory, mol, env, "Topology", "Trajectory");
    if loaded.Err? {
      return Err(loaded.error);
    }
    var projection := DispatchAsWritten(loaded.value, pm, projectionKwargs, env);
    if projection.Err? {
      return Err(projection.error);
    }
    r := RouteAsWritten(projection.value, idMethod, estimator, last, rest, env);
  }

  /** The engine entry point with the two defects corrected: the same pops, then `Estimate`
      on the dict as it was. */
  method IntrinsicDimension(topology: string, trajectory: string, mol: Option<Molecule>,
                            pm: ProjectionMethod, idMethod: string, projectionKwargs: map<string, Value>,
                            idKwargs: KwargsDict?, env: Env) returns (r: Result<IdOutput>)
    modifies idKwargs
    ensures idKwargs != null ==> idKwargs.entries == old(idKwargs.entries) - ConsumedKeys
    ensures r == Estimate(topology, trajectory, mol, pm, idMethod, projectionKwargs,
                          if idKwargs == null then map[] else old(idKwargs.entries), env)
  {
    var estimator, last, rest := PopSettings(idKwargs);
    var loaded := LoadInput(topology, trajectory, mol, env, "Topology", "Trajectory");
    if loaded.Err? {
      return Err(loaded.error);
    }
    var projection := Dispatch(loaded.value, pm, projectionKwargs, env);
    if projection.Err? {
      return Err(projection.error);
    }
    r := Route(projection.value, idMethod, estimator, last, rest, env);
  }

  /** Without id kwargs the estimator is TwoNN over the last 100 frames, with no extra
      constructor arguments. */
  lemma EstimatorSettings(topology: string, trajectory: string, mol: Option<Molecule>,
                          pm: ProjectionMethod, idMethod: string, pk: map<string, Value>, env: Env)
    ensures Estimate(topology, trajectory, mol, pm, idMethod, pk, map[], env)
      == match LoadInput(topology, trajectory, mol, env, "Topology", "Trajectory")
         case Err(e) => Err(e)
         case Ok(m) =>
           match Dispatch(m, pm, pk, env)
           case Err(e) => Err(e)
           case Ok(p) => Route(p, idMethod, VStr("TwoNN"), VInt(100), map[], env)
  {
    var empty: map<string, Value> := map[];
    assert empty - ConsumedKeys == empty;
  }

  /** A `projection` key in the caller's id kwargs survives the two pops and reaches the
      adapter call twice over: once the input and the projection are resolved, both the
      written and the corrected engine raise TypeError for either id method. */
  lemma ProjectionKeyClashes(topology: string, trajectory: string, mol: Option<Molecule>,
                             pm: ProjectionMethod, idMethod: string, pk: map<string, Value>,
                             ik: map<string, Value>, env: Env)
    requires "projection" in ik && (idMethod == "local" || idMethod == "global")
    requires LoadInput(topology, trajectory, mol, env, "Topology", "Trajectory").Ok?
    ensures var m := LoadInput(topology, trajectory, mol, env, "Topology", "Trajectory").value;
      Dispatch(m, pm, pk, env).Ok? ==>
        Estimate(topology, trajectory, mol, pm, idMethod, pk, ik, env) == Err(DuplicateKeyword("projection"))
    ensures var m := LoadInput(topology, trajectory, mol, env, "Topology", "Trajectory").value;
      DispatchAsWritten(m, pm, pk, env).Ok? ==>
        EstimateAsWritten(topology, trajectory, mol, pm, idMethod, pk, ik, env) == Err(DuplicateKeyword("projection"))
    ensures Kind(DuplicateKeyword("projection")) == TypeError
  {
    assert "projection" !in ConsumedKeys;
    assert "projection" in ik - ConsumedKeys;
  }

  /** A given molecule makes the paths irrelevant; otherwise a missing topology is reported
      before the trajectory is looked at, each error naming its role. */
  lemma InputResolution(topology: string, trajectory: string, mol: Option<Molecule>,
                        pm: ProjectionMethod, idMethod: string, pk: map<string, Value>,
                        ik: map<string, Value>, env: Env, topology2: string, trajectory2: string)
    ensures mol.Some? ==> Estimate(topology, trajectory, mol, pm, idMethod, pk, ik, env)
                          == Estimate(topology2, trajectory2, mol, pm, idMethod, pk, ik, env)
    ensures mol.None? && !env.isFile(topology) ==>
      Estimate(topology, trajectory, mol, pm, idMethod, pk, ik, env) == Err(FileNotFound("Topology", topology))
    ensures mol.None? && env.isFile(topology) && !env.isFile(trajectory) ==>
      Estimate(topology, trajectory, mol, pm, idMethod, pk, ik, env) == Err(FileNotFound("Trajectory", trajectory))
  {
  }

  /** Resolution order: a built-in name goes to the projection provider, any other string
      to dynamic resolution, then a Projection object, then an array unchanged, and
      anything else is a TypeError. */
  lemma DispatchOrder(mol: Molecule, pm: ProjectionMethod, pk: map<string, Value>, env: Env)
    ensures pm.ByName? && IsBuiltin(pm.name) ==>
      Dispatch(mol, pm, pk, env) == BuiltinProjection(mol, pm.name, pk, env)
    ensures pm.ByName? && !IsBuiltin(pm.name) ==>
      Dispatch(mol, pm, pk, env) == CustomProjection(mol, pm.name, pk, env)
    ensures pm.Prebuilt? ==> Dispatch(mol, pm, pk, env) == env.projectObject(pm.handle, mol)
    ensures pm.Precomputed? ==> Dispatch(mol, pm, pk, env) == Ok(pm.matrix)
    ensures pm.OtherObject? ==> Kind(Dispatch(mol, pm, pk, env).error) == TypeError
  {
  }

  /** As written, a local estimate never reaches the caller: the call clashes on
      `projection`, the local estimator fails, or a TypeError naming 'local' follows it. */
  lemma LocalAlwaysFailsAsWritten(projection: Matrix, estimator: Value, last: Value,
                                  rest: map<string, Value>, env: Env)
    ensures RouteAsWritten(projection, "local", estimator, last, rest, env).Err?
    ensures "projection" in rest ==>
      RouteAsWritten(projection, "local", estimator, last, rest, env) == Err(DuplicateKeyword("projection"))
    ensures "projection" !in rest && ComputeLocal(projection, estimator, last, rest, env).Ok? ==>
      RouteAsWritten(projection, "local", estimator, last, rest, env) == Err(InvalidIdMethod("local"))
      && Kind(InvalidIdMethod("local")) == TypeError
  {
    if "projection" !in rest {
      var c := ComputeLocal(projection, estimator, last, rest, env);
      assert RouteAsWritten(projection, "local", estimator, last, rest, env)
        == if c.Err? then Err(c.error) else Err(InvalidIdMethod("local"));
    }
  }

  /** As written, the engine never returns a local estimate, whatever its input. */
  lemma LocalEstimateFailsAsWritten(topology: string, trajectory: string, mol: Option<Molecule>,
                                    pm: ProjectionMethod, pk: map<string, Value>, ik: map<string, Value>, env: Env)
    ensures EstimateAsWritten(topology, trajectory, mol, pm, "local", pk, ik, env).Err?
  {
    var loaded := LoadInput(topology, trajectory, mol, env, "Topology", "Trajectory");
    if loaded.Ok? && DispatchAsWritten(loaded.value, pm, pk, env).Ok? {
      LocalAlwaysFailsAsWritten(DispatchAsWritten(loaded.value, pm, pk, env).value,
                                GetOr(ik, "estimator", VStr("TwoNN")), GetOr(ik, "last", VInt(100)),
                                ik - ConsumedKeys, env);
    }
  }

  /** As written, an array is refused with a TypeError instead of being used. */
  lemma ArrayRejectedAsWritten(mol: Molecule, m: Matrix, pk: map<string, Value>, env: Env)
    ensures DispatchAsWritten(mol, Precomputed(m), pk, env) == Err(Unhashable)
    ensures Kind(Unhashable) == TypeError
    ensures Dispatch(mol, Precomputed(m), pk, env) == Ok(m)
  {
  }

  /** The written and the corrected engine differ only in those two places: for a global
      estimate from a name or a Projection object they agree exactly, and a local estimate
      the corrected engine returns is one the written engine turns into a TypeError. */
  lemma AsWrittenAgreesElsewhere(topology: string, trajectory: string, mol: Option<Molecule>,
                                 pm: ProjectionMethod, idMethod: string, pk: map<string, Value>,
                                 ik: map<string, Value>, env: Env)
    requires pm.ByName? || pm.Prebuilt?
    ensures idMethod != "local" ==>
      EstimateAsWritten(topology, trajectory, mol, pm, idMethod, pk, ik, env)
        == Estimate(topology, trajectory, mol, pm, idMethod, pk, ik, env)
    ensures idMethod == "local" && Estimate(topology, trajectory, mol, pm, idMethod, pk, ik, env).Ok? ==>
      EstimateAsWritten(topology, trajectory, mol, pm, idMethod, pk, ik, env) == Err(InvalidIdMethod("local"))
  {
  }
}
