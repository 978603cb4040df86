/** How both trajectory-ID engines (md_intrinsic_dimension/md_intrinsic_dimension.py and
    intrinsic_dimension/intrinsic_dimension.py) turn a projection name into a projection:
    the two built-in names go to the projection provider, and any other name is resolved by
    convention to a MoleculeKit metric module and class. */
module ProjectionDispatch {
  import opened Common
  import opened ComputeProjections

  /** The Python object passed as `projection_method`. */
  datatype ProjectionMethod =
    | ByName(name: string)          // a str
    | Prebuilt(handle: nat)         // a moleculekit Projection instance
    | Precomputed(matrix: Matrix)   // an np.ndarray of per-frame features
    | OtherObject(hashable: bool)   // anything else; lists and dicts are unhashable

  function LowerChar(c: char): char
  {
    if 'A' <= c <= 'Z' then (c as int + 32) as char else c
  }

  /** `str.lower()` on ASCII letters. */
  function ToLower(s: string): (r: string)
    ensures |r| == |s|
    ensures forall i :: 0 <= i < |s| ==> r[i] == LowerChar(s[i])
  {
    if s == [] then [] else [LowerChar(s[0])] + ToLower(s[1..])
  }

  /** Lower-casing leaves no upper-case letter and is idempotent. */
  lemma ToLowerIdempotent(s: string)
    ensures forall i :: 0 <= i < |s| ==> !('A' <= ToLower(s)[i] <= 'Z')
    ensures ToLower(ToLower(s)) == ToLower(s)
  {
  }

  /** A string without upper-case letters is its own lower-case form. */
  lemma {:induction false} ToLowerOfLower(s: string)
    requires forall i :: 0 <= i < |s| ==> !('A' <= s[i] <= 'Z')
    ensures ToLower(s) == s
  {
    if s != [] {
      ToLowerOfLower(s[1..]);
    }
  }

  const MetricModulePrefix := "moleculekit.projections.metric"

  /** `f'moleculekit.projections.metric{name.lower()}'` */
  function ModuleName(name: string): string
  {
    MetricModulePrefix + ToLower(name)
  }

  /** `f'Metric{name}'` */
  function ClassName(name: string): string
  {
    "Metric" + name
  }

  /** The class name keeps the case of the projection name, so different names give
      different classes; the module name forgets the case, so two names share a module
      exactly when they agree ignoring case. */
  lemma DynamicNames(a: string, b: string)
    ensures ClassName(a) == ClassName(b) <==> a == b
    ensures ModuleName(a) == ModuleName(b) <==> ToLower(a) == ToLower(b)
  {
    if ClassName(a) == ClassName(b) {
      assert a == ClassName(a)[6..] && b == ClassName(b)[6..];
    }
    if ModuleName(a) == ModuleName(b) {
      var n := |MetricModulePrefix|;
      assert ToLower(a) == ModuleName(a)[n..] && ToLower(b) == ModuleName(b)[n..];
    }
  }

  /** The keys of the `builtins` dictionary. Matching is exact, so case matters. */
  predicate IsBuiltin(name: string)
  {
    name == "Distances" || name == "Dihedrals"
  }

  /** The keyword arguments each built-in lambda passes to the projection provider: only
      the selection and the stride for distances, only the angles and the sine/cosine flag
      for dihedrals, each defaulted from the caller's projection kwargs. */
  function BuiltinKwargs(name: string, pk: map<string, Value>): (r: map<string, Value>)
    ensures name == "Distances" ==> r.Keys == {"sele", "step"}
    ensures name != "Distances" ==> r.Keys == {"dihedrals", "sincos"}
    ensures forall k :: k in r ==> r[k] == GetOr(pk, k, if k == "sele" then VStr("name CA")
                                                      else if k == "step" then VInt(1)
                                                      else if k == "dihedrals" then VNames(["phi", "psi"])
                                                      else VBool(false))
  {
    if name == "Distances" then
      map["sele" := GetOr(pk, "sele", VStr("name CA")), "step" := GetOr(pk, "step", VInt(1))]
    else
      map["dihedrals" := GetOr(pk, "dihedrals", VNames(["phi", "psi"])),
          "sincos" := GetOr(pk, "sincos", VBool(false))]
  }

  /** With no projection kwargs the built-ins use the CA atoms with stride 1, and the phi
      and psi angles without the sine/cosine expansion. */
  lemma BuiltinDefaults()
    ensures BuiltinKwargs("Distances", map[]) == map["sele" := VStr("name CA"), "step" := VInt(1)]
    ensures BuiltinKwargs("Dihedrals", map[]) ==
      map["dihedrals" := VNames(["phi", "psi"]), "sincos" := VBool(false)]
  {
  }

  /** `builtins[name]()` */
  function BuiltinProjection(mol: Molecule, name: string, pk: map<string, Value>, env: Env): Result<Matrix>
    requires IsBuiltin(name)
  {
    match Project(mol, name, BuiltinKwargs(name, pk), env)
    case Err(e) => Err(e)
    case Ok(Some(m)) => Ok(m)
    case Ok(None) => assert false; Err(NoFrames)
  }

  /** The `try` block: import the conventional module, fetch the conventional class, build
      it from all projection kwargs and project; any failure becomes an ImportError that
      names the class and the module. */
  function CustomProjection(mol: Molecule, name: string, pk: map<string, Value>, env: Env): (r: Result<Matrix>)
    ensures r.Err? ==> (r.error.ProjectionUnavailable? && Kind(r.error) == ImportError
                        && r.error.className == ClassName(name) && r.error.moduleName == ModuleName(name)
                        && env.customMetric(ModuleName(name), ClassName(name), pk, mol) == Err(r.error.cause))
    ensures r.Ok? <==> env.customMetric(ModuleName(name), ClassName(name), pk, mol).Ok?
    ensures r.Ok? ==> r == env.customMetric(ModuleName(name), ClassName(name), pk, mol)
  {
    match env.customMetric(ModuleName(name), ClassName(name), pk, mol)
    case Err(e) => Err(ProjectionUnavailable(ClassName(name), ModuleName(name), e))
    case Ok(m) => Ok(m)
  }

  /** A string `projection_method`: a built-in key first, else dynamic resolution. */
  function ByNameProjection(mol: Molecule, name: string, pk: map<string, Value>, env: Env): Result<Matrix>
  {
    if IsBuiltin(name) then BuiltinProjection(mol, name, pk, env) else CustomProjection(mol, name, pk, env)
  }

  /** Lower-case 'dihedrals' is not a built-in: it goes to dynamic resolution, where a
      failure is an ImportError. */
  lemma CaseSensitiveBuiltins(mol: Molecule, pk: map<string, Value>, env: Env)
    ensures !IsBuiltin("dihedrals") && !IsBuiltin("distances")
    ensures ByNameProjection(mol, "dihedrals", pk, env) == CustomProjection(mol, "dihedrals", pk, env)
    ensures ByNameProjection(mol, "dihedrals", pk, env).Err? ==>
      Kind(ByNameProjection(mol, "dihedrals", pk, env).error) == ImportError
  {
  }

  /** ... and is looked up as class `Metricdihedrals` in module
      `moleculekit.projections.metricdihedrals`. */
  lemma LowerCaseDihedralsNames()
    ensures ModuleName("dihedrals") == MetricModulePrefix + "dihedrals"
    ensures ClassName("dihedrals") == "Metricdihedrals"
  {
    ToLowerOfLower("dihedrals");
  }
}
