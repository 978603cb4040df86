/** Vocabulary shared by every part of the model: Python values, the exceptions the
    package raises, molecules, and the external collaborators (file system, MoleculeKit,
    scikit-dimension) that the package only orchestrates. */
module Common {

  datatype Option<T> = None | Some(value: T)

  /** The Python exception class an error surfaces as. `Unpinned` is used where the class
      depends on a collaborator's internals. */
  datatype ErrorKind =
    | FileNotFoundError
    | ValueError
    | TypeError
    | ImportError
    | AttributeError
    | IndexError
    | ZeroDivisionError
    | Unpinned

  /** Every failure the modelled code raises, one constructor per raise site or per
      built-in failure it runs into. */
  datatype Error =
    | FileNotFound(role: string, path: string)  // "<role> file not found: <path>"
    | MissingReference                          // no reference structure for DSSP
    | ReferenceNotMolecule                      // reference is the Molecule class, not an instance
    | ReferenceMultiFrame                       // reference has more than one frame
    | AtomCountMismatch                         // mol and reference differ in numAtoms
    | FieldMismatch(key: string)                // "mol and mol_ref differ in <key>"
    | EmptyTable                                // iloc[0] of an empty label table
    | TableLengthMismatch                       // DataFrame columns of different lengths
    | InvalidWindow                             // window_size <= 1
    | ZeroStride                                // range() with a zero step
    | ZeroDivision                              // (R - w) // 0
    | IndexOutOfRange                           // sequence index out of range
    | EmptyWindow                               // min() of an empty window
    | NoFrames                                  // molecule without trajectory frames
    | NoAtoms                                   // molecule without atoms
    | InvalidMetric(metric: Value)              // metric other than distances/contacts
    | ZeroStep                                  // slice step of zero
    | StepNotInteger                            // slice step that is not an integer
    | Unhashable                                // membership test on an unhashable value
    | InvalidProjectionMethod                   // projection_method of an unsupported type
    | ProjectionUnavailable(className: string, moduleName: string, cause: Error)
    | InvalidIdMethod(idMethod: string)         // id_method other than local/global
    | EstimatorNameNotString                    // getattr with a non-string estimator
    | UnknownEstimator(name: string)            // no such estimator in skdim.id
    | LastNotInteger                            // slice bound `-last` that is not an integer
    | DuplicateKeyword(name: string)            // one keyword argument given twice in a call
    | External(kind: ErrorKind, message: string) // raised inside a collaborator

  function Kind(e: Error): ErrorKind
  {
    match e
    case FileNotFound(_, _) => FileNotFoundError
    case MissingReference => FileNotFoundError
    case ReferenceNotMolecule => Unpinned
    case ReferenceMultiFrame => ValueError
    case AtomCountMismatch => ValueError
    case FieldMismatch(_) => ValueError
    case EmptyTable => IndexError
    case TableLengthMismatch => ValueError
    case InvalidWindow => ValueError
    case ZeroStride => ValueError
    case ZeroDivision => ZeroDivisionError
    case IndexOutOfRange => IndexError
    case EmptyWindow => ValueError
    case NoFrames => ValueError
    case NoAtoms => ValueError
    case InvalidMetric(_) => ValueError
    case ZeroStep => ValueError
    case StepNotInteger => TypeError
    case DuplicateKeyword(_) => TypeError
    case Unhashable => TypeError
    case InvalidProjectionMethod => TypeError
    case ProjectionUnavailable(_, _, _) => ImportError
    case InvalidIdMethod(_) => TypeError
    case EstimatorNameNotString => TypeError
    case UnknownEstimator(_) => AttributeError
    case LastNotInteger => TypeError
    case External(k, _) => k
  }

  datatype Result<T> = Ok(value: T) | Err(error: Error)

  /** A value stored in a keyword-argument dictionary. */
  datatype Value =
    | VStr(s: string)
    | VInt(i: int)
    | VBool(b: bool)
    | VNames(names: seq<string>)  // a tuple of names such as ('phi', 'psi')
    | VNone                       // None given explicitly
    | VOpaque(tag: nat)           // any other Python object

  /** The integer Python uses for a value in an integer position: ints, and bools as 0/1. */
  function AsInt(v: Value): Option<int>
  {
    match v
    case VInt(i) => Some(i)
    case VBool(b) => Some(if b then 1 else 0)
    case _ => None
  }

  /** `d.get(key, default)` */
  function GetOr(d: map<string, Value>, key: string, default: Value): Value
  {
    if key in d then d[key] else default
  }

  /** A Python float as produced by numpy: a real number (no rounding) or NaN. */
  datatype Float = Finite(x: real) | NaN

  /** A feature matrix: one row per frame. */
  type Matrix = seq<seq<real>>

  /** A secondary-structure letter as DSSP prints it ('H', 'E', 'C', ' ', ...). */
  type Label = char

  /** One atom of a MoleculeKit Molecule: the identity fields compared against a
      reference structure, and its coordinates over the frames (never inspected). */
  datatype Atom = Atom(name: string, resid: int, resname: string, chain: string, segid: string,
                       coords: seq<real>)

  datatype Molecule = Molecule(numFrames: nat, atoms: seq<Atom>)

  function NumAtoms(m: Molecule): nat { |m.atoms| }

  /** The collaborators the package calls and does not implement. */
  datatype Env = Env(
    isFile: string -> bool,                                   // os.path.isfile
    load: (string, string) -> Result<Molecule>,               // Molecule(topology) + read(trajectory)
    matches: (Atom, string) -> bool,                          // VMD selection, atom by atom
    atomSelect: (Molecule, Value) -> seq<nat>,                // mol.atomselect(sele, indexes=True)
    distances: (Molecule, seq<string>, seq<string>, string) -> Result<Matrix>,
                                                              // MetricDistance(...).project
    dihedrals: (Molecule, Value, Value) -> Result<Matrix>,    // MetricDihedral(...).project
    customMetric: (string, string, map<string, Value>, Molecule) -> Result<Matrix>,
                                                              // import module, getattr class, construct, project
    projectObject: (nat, Molecule) -> Result<Matrix>,         // Projection.project of a given object
    dssp: (Molecule, bool) -> Result<seq<Label>>,             // first frame of MetricSecondaryStructure
    estimators: set<string>,                                  // names defined in skdim.id
    pointwise: (string, map<string, Value>, Matrix) -> Result<seq<real>>,
                                                              // estimator(**kw).fit_transform_pw(...)[1]
    globalFit: (string, map<string, Value>, Matrix) -> Result<Float>)
                                                              // estimator(**kw).fit_transform(...)

  /** The atoms a selection string picks, in their original order. */
  function Select(atoms: seq<Atom>, sel: string, env: Env): (r: seq<Atom>)
    ensures |r| <= |atoms|
    ensures forall a :: a in r <==> a in atoms && env.matches(a, sel)
  {
    if atoms == [] then []
    else
      var rest := Select(atoms[1..], sel, env);
      assert forall a :: a in atoms <==> a == atoms[0] || a in atoms[1..];
      if env.matches(atoms[0], sel) then [atoms[0]] + rest else rest
  }

  /** `mol.copy()` followed by `filter(sel)`: a new molecule keeping the selected atoms and
      every frame; the original is a value and is left as it was. */
  function Filter(mol: Molecule, sel: string, env: Env): (r: Molecule)
    ensures r.numFrames == mol.numFrames
    ensures forall a :: a in r.atoms <==> a in mol.atoms && env.matches(a, sel)
  {
    Molecule(mol.numFrames, Select(mol.atoms, sel, env))
  }

  function ResidsOf(atoms: seq<Atom>): (r: seq<int>)
    ensures |r| == |atoms|
    ensures forall i :: 0 <= i < |atoms| ==> r[i] == atoms[i].resid
  {
    seq(|atoms|, i requires 0 <= i < |atoms| => atoms[i].resid)
  }

  function ResnamesOf(atoms: seq<Atom>): (r: seq<string>)
    ensures |r| == |atoms|
    ensures forall i :: 0 <= i < |atoms| ==> r[i] == atoms[i].resname
  {
    seq(|atoms|, i requires 0 <= i < |atoms| => atoms[i].resname)
  }

  /** `mol.get('resid', sel=sel)` */
  function GetResids(mol: Molecule, sel: string, env: Env): seq<int>
  {
    ResidsOf(Select(mol.atoms, sel, env))
  }

  /** Input resolution shared by every entry point: a given molecule is used as it is;
      otherwise the topology file is checked, then the trajectory file, then both are loaded. */
  function LoadInput(topology: string, trajectory: string, mol: Option<Molecule>, env: Env,
                     topologyRole: string, trajectoryRole: string): Result<Molecule>
  {
    if mol.Some? then Ok(mol.value)
    else if !env.isFile(topology) then Err(FileNotFound(topologyRole, topology))
    else if !env.isFile(trajectory) then Err(FileNotFound(trajectoryRole, trajectory))
    else env.load(topology, trajectory)
  }
}
