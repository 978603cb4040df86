/** The older trajectory-ID engine (intrinsic_dimension/intrinsic_dimension.py): settings
    are read with `.get`, only string projection methods are accepted, and the estimator
    receives no extra keyword arguments. */
module LegacyEngine {
  import opened Common
  import opened ComputeId
  import opened ProjectionDispatch

  /** Only strings are resolved; the membership test refuses unhashable objects first. */
  function Dispatch(mol: Molecule, pm: ProjectionMethod, pk: map<string, Value>, env: Env): (r: Result<Matrix>)
    ensures pm.ByName? ==> r == ByNameProjection(mol, pm.name, pk, env)
    ensures !pm.ByName? ==> r.Err? && Kind(r.error) == TypeError
  {
    match pm
    case ByName(name) => ByNameProjection(mol, name, pk, env)
    case Precomputed(_) => Err(Unhashable)
    case OtherObject(hashable) => if hashable then Err(InvalidProjectionMethod) else Err(Unhashable)
    case Prebuilt(_) => Err(InvalidProjectionMethod)
  }

  /** `'local'`, `'global'`, anything else a TypeError; the estimator gets no extra
      keyword arguments. */
  function Route(projection: Matrix, idMethod: string, estimator: Value, last: Value, env: Env): (r: Result<IdOutput>)
    ensures idMethod == "local" ==> r == ComputeLocal(projection, estimator, last, map[], env)
    ensures idMethod == "global" ==> r == ComputeGlobal(projection, estimator, last, map[], env)
    ensures idMethod != "local" && idMethod != "global" ==> r == Err(InvalidIdMethod(idMethod))
  {
    if idMethod == "local" then ComputeLocal(projection, estimator, last, map[], env)
    else if idMethod == "global" then ComputeGlobal(projection, estimator, last, map[], env)
    else Err(InvalidIdMethod(idMethod))
  }

  /** `intrinsic_dimension(...)`; the default projection method is `DefaultMethod`. */
  function Estimate(topology: string, trajectory: string, mol: Option<Molecule>,
                    pm: ProjectionMethod, idMethod: string, pk: map<string, Value>,
                    ik: map<string, Value>, env: Env): Result<IdOutput>
  {
    var estimator := GetOr(ik, "estimator", VStr("TwoNN"));
    var last := GetOr(ik, "last", VInt(100));
    match LoadInput(topology, trajectory, mol, env, "Topology", "Trajectory")
    case Err(e) => Err(e)
    case Ok(m) =>
      match Dispatch(m, pm, pk, env)
      case Err(e) => Err(e)
      case Ok(projection) => Route(projection, idMethod, estimator, last, env)
  }

  /** The default `projection_method`. */
  const DefaultMethod := ByName("Distance")

  /** The default name is not a built-in key, so it goes to dynamic resolution ... */
  lemma DefaultIsDynamic(mol: Molecule, pk: map<string, Value>, env: Env)
    ensures !IsBuiltin(DefaultMethod.name)
    ensures Dispatch(mol, DefaultMethod, pk, env) == CustomProjection(mol, "Distance", pk, env)
  {
  }

  /** ... which looks for `MetricDistance` in `moleculekit.projections.metricdistance`. */
  lemma DefaultNames()
    ensures ClassName("Distance") == "MetricDistance"
    ensures ModuleName("Distance") == MetricModulePrefix + "distance"
  {
    var s := "Distance";
    assert s[1..] == "istance";
    ToLowerOfLower("istance");
    assert ToLower(s) == [LowerChar('D')] + ToLower("istance");
    assert ToLower(s) == "distance";
  }

  /** The id kwargs are only read: the result depends on them through `estimator` and
      `last` alone, so every other key is ignored rather than forwarded. */
  lemma OnlyEstimatorAndLastMatter(topology: string, trajectory: string, mol: Option<Molecule>,
                                   pm: ProjectionMethod, idMethod: string, pk: map<string, Value>,
                                   ik: map<string, Value>, ik2: map<string, Value>, env: Env)
    requires GetOr(ik, "estimator", VStr("TwoNN")) == GetOr(ik2, "estimator", VStr("TwoNN"))
    requires GetOr(ik, "last", VInt(100)) == GetOr(ik2, "last", VInt(100))
    ensures Estimate(topology, trajectory, mol, pm, idMethod, pk, ik, env)
         == Estimate(topology, trajectory, mol, pm, idMethod, pk, ik2, env)
  {
  }

  /** A given molecule makes the paths irrelevant; otherwise the topology is checked
      before the trajectory. */
  lemma InputResolution(topology: string, trajectory: string, mol: Option<Molecule>,
                        pm: ProjectionMethod, idMethod: string, pk: map<string, Value>,
                        ik: map<string, Value>, env: Env, topology2: string, trajectory2: string)
    ensures mol.Some? ==> Estimate(topology, trajectory, mol, pm, idMethod, pk, ik, env)
                          == Estimate(topology2, trajectory2, mol, pm, idMethod, pk, ik, env)
    ensures mol.None? && !env.isFile(topology) ==>
      Estimate(topology, trajectory, mol, pm, idMethod, pk, ik, env) == Err(FileNotFound("Topology", topology))
    ensures mol.None? && env.isFile(topology) && !env.isFile(trajectory) ==>
      Estimate(topology, trajectory, mol, pm, idMethod, pk, ik, env) == Err(FileNotFound("Trajectory", trajectory))
  {
  }

  /** Once the molecule is available, a non-string projection method is a TypeError,
      whatever the id method. */
  lemma NonStringRejected(mol: Molecule, pm: ProjectionMethod, idMethod: string, pk: map<string, Value>,
                          ik: map<string, Value>, env: Env)
    requires !pm.ByName?
    ensures Estimate("", "", Some(mol), pm, idMethod, pk, ik, env).Err?
    ensures Kind(Estimate("", "", Some(mol), pm, idMethod, pk, ik, env).error) == TypeError
  {
  }
}
