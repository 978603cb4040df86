/** The projection provider (intrinsic_dimension/compute_projections.py): per-frame
    features of a molecule, either the distances between every pair of (sub-sampled)
    selected atoms or a set of backbone dihedral angles. */
module ComputeProjections {
  import opened Common
  import opened PySeq
  import opened Text

  /** Euclidean division is determined by any quotient and remainder that fit. */
  lemma DivUnique(x: int, d: int, q: int, r: int)
    requires d > 0 && 0 <= r < d && x == q * d + r
    ensures x / d == q
  {
    var q', r' := x / d, x % d;
    assert x == q' * d + r';
    assert (q' - q) * d == q' * d - q * d;
    SmallMultiple(q' - q, d);
  }

  /** The only multiple of `d` strictly between `-d` and `d` is zero. */
  lemma SmallMultiple(k: int, d: int)
    requires d > 0 && -d < k * d < d
    ensures k == 0
  {
    if k >= 1 {
      MulLeMono(1, k, d);
    } else if k <= -1 {
      MulLeMono(k, -1, d);
    }
  }

  lemma DivAddDivisor(x: nat, d: nat)
    requires d > 0
    ensures (x + d) / d == x / d + 1
  {
    assert x == (x / d) * d + x % d;
    assert (x / d + 1) * d == (x / d) * d + d;
    DivUnique(x + d, d, x / d + 1, x % d);
  }

  lemma DivIsOne(x: nat, d: nat)
    requires 0 < d <= x < 2 * d
    ensures x / d == 1
  {
    DivUnique(x, d, 1, x - d);
  }

  /** `s[0::step]` for a positive step: every `step`-th element starting with the first. */
  function StrideFrom<T>(s: seq<T>, step: nat): (r: seq<T>)
    requires step > 0
    ensures |r| == (|s| + step - 1) / step
    ensures forall k :: 0 <= k < |r| ==> k * step < |s| && r[k] == s[k * step]
    decreases |s|
  {
    if s == [] then []
    else if |s| <= step then
      DivIsOne(|s| + step - 1, step);
      [s[0]]
    else
      var rest := StrideFrom(s[step..], step);
      DivAddDivisor(|s| - 1, step);
      StrideCons(s, step, rest);
      [s[0]] + rest
  }

  /** Putting the first element in front of the stride of `s[step..]` gives the stride
      of `s`. */
  lemma StrideCons<T>(s: seq<T>, step: nat, rest: seq<T>)
    requires 0 < step < |s|
    requires forall k :: 0 <= k < |rest| ==> k * step < |s| - step && rest[k] == s[step..][k * step]
    ensures forall k :: 0 <= k < |rest| + 1 ==> k * step < |s| && ([s[0]] + rest)[k] == s[k * step]
  {
    forall k | 0 <= k < |rest| + 1 ensures k * step < |s| && ([s[0]] + rest)[k] == s[k * step] {
      if k > 0 {
        assert (k - 1) * step + step == k * step;
      }
    }
  }

  /** `all_atoms[0::step]` with `step` taken from the keyword arguments: a `None` step is
      a step of 1; numpy refuses a zero step and a step that is not an integer; a negative
      step starting at index 0 keeps at most the first element. */
  function Stride(s: seq<nat>, step: Value): (r: Result<seq<nat>>)
    ensures r.Ok? <==> step.VNone? || (AsInt(step).Some? && AsInt(step).value != 0)
    ensures step.VNone? ==> r == Ok(s)
    ensures AsInt(step) == Some(0) ==> r == Err(ZeroStep)
    ensures AsInt(step).None? && !step.VNone? ==> r == Err(StepNotInteger)
    ensures r.Ok? && AsInt(step).Some? && AsInt(step).value < 0 ==> r.value == s[..Min(1, |s|)]
    ensures r.Ok? && AsInt(step).Some? && AsInt(step).value > 0 ==> r.value == StrideFrom(s, AsInt(step).value)
  {
    if step.VNone? then
      var all := StrideFrom(s, 1);
      assert forall k :: 0 <= k < |all| ==> all[k] == s[k];
      assert all == s;
      Ok(all)
    else
    match AsInt(step)
    case None => Err(StepNotInteger)
    case Some(k) =>
      if k == 0 then Err(ZeroStep)
      else if k > 0 then Ok(StrideFrom(s, k))
      else Ok(if s == [] then [] else [s[0]])
  }

  /** The pairs `(i, j)` for `j` from `j0` below `n`, as the inner loop visits them. */
  function RowFrom(i: nat, j0: nat, n: nat): (r: seq<(nat, nat)>)
    ensures |r| == if j0 <= n then n - j0 else 0
    ensures forall t :: 0 <= t < |r| ==> r[t] == (i, j0 + t)
    decreases n - j0
  {
    if j0 >= n then [] else [(i, j0)] + RowFrom(i, j0 + 1, n)
  }

  /** The pairs the nested loops visit once the outer index has reached `i`. */
  function PairsFrom(i: nat, n: nat): seq<(nat, nat)>
    decreases n - i
  {
    if i >= n then [] else RowFrom(i, i + 1, n) + PairsFrom(i + 1, n)
  }

  /** The index pairs of `n` atoms in the order the nested loops enumerate them. */
  function IndexPairs(n: nat): seq<(nat, nat)>
  {
    PairsFrom(0, n)
  }

  predicate LexLess(p: (nat, nat), q: (nat, nat))
  {
    p.0 < q.0 || (p.0 == q.0 && p.1 < q.1)
  }

  lemma {:induction false} PairsFromCount(i: nat, n: nat)
    requires i <= n
    ensures 2 * |PairsFrom(i, n)| == (n - i) * (n - i - 1)
    decreases n - i
  {
    if i < n {
      PairsFromCount(i + 1, n);
      var m := n - i - 1;
      assert 2 * m + m * (m - 1) == (m + 1) * m;
    }
  }

  /** Every pair from outer index `i` on has `i <= a < b < n`. */
  lemma {:induction false} PairsFromBounds(i: nat, n: nat)
    ensures forall t :: 0 <= t < |PairsFrom(i, n)| ==>
      i <= PairsFrom(i, n)[t].0 < PairsFrom(i, n)[t].1 < n
    decreases n - i
  {
    if i < n {
      var P, R, Q := PairsFrom(i, n), RowFrom(i, i + 1, n), PairsFrom(i + 1, n);
      PairsFromBounds(i + 1, n);
      assert P == R + Q;
      forall t | 0 <= t < |P| ensures i <= P[t].0 < P[t].1 < n {
        if t >= |R| {
          assert P[t] == Q[t - |R|];
        }
      }
    }
  }

  /** Every `(a, b)` with `i <= a < b < n` is visited from outer index `i` on. */
  lemma {:induction false} PairsFromComplete(i: nat, n: nat)
    ensures forall a: nat, b: nat :: i <= a < b < n ==> (a, b) in PairsFrom(i, n)
    decreases n - i
  {
    if i < n {
      var P, R, Q := PairsFrom(i, n), RowFrom(i, i + 1, n), PairsFrom(i + 1, n);
      PairsFromComplete(i + 1, n);
      assert P == R + Q;
      forall a: nat, b: nat | i <= a < b < n ensures (a, b) in P {
        if i == a {
          assert R[b - i - 1] == (a, b);
        } else {
          assert (a, b) in Q;
        }
      }
    }
  }

  /** The pairs from outer index `i` on come in strictly increasing lexicographic order. */
  lemma {:induction false} PairsFromSorted(i: nat, n: nat)
    ensures forall p, q :: 0 <= p < q < |PairsFrom(i, n)| ==>
      LexLess(PairsFrom(i, n)[p], PairsFrom(i, n)[q])
    decreases n - i
  {
    if i < n {
      var P, R, Q := PairsFrom(i, n), RowFrom(i, i + 1, n), PairsFrom(i + 1, n);
      PairsFromSorted(i + 1, n);
      PairsFromBounds(i + 1, n);
      assert P == R + Q;
      forall p, q | 0 <= p < q < |P| ensures LexLess(P[p], P[q]) {
        if q < |R| {
          assert P[p] == R[p] && P[q] == R[q];
        } else if p < |R| {
          assert P[p] == R[p] && P[q] == Q[q - |R|];
        } else {
          assert P[p] == Q[p - |R|] && P[q] == Q[q - |R|];
        }
      }
    }
  }

  /** The loops fill `n * (n - 1) // 2` rows: every pair `i < j < n` exactly once, in
      lexicographic order. */
  lemma IndexPairsShape(n: nat)
    ensures |IndexPairs(n)| == n * (n - 1) / 2
    ensures forall t :: 0 <= t < |IndexPairs(n)| ==> IndexPairs(n)[t].0 < IndexPairs(n)[t].1 < n
    ensures forall a: nat, b: nat :: (a, b) in IndexPairs(n) <==> a < b < n
    ensures forall p, q :: 0 <= p < q < |IndexPairs(n)| ==> IndexPairs(n)[p] != IndexPairs(n)[q]
  {
    PairsFromCount(0, n);
    PairsFromBounds(0, n);
    PairsFromComplete(0, n);
    PairsFromSorted(0, n);
    var P := IndexPairs(n);
    forall p, q | 0 <= p < q < |P| ensures P[p] != P[q] {
      assert LexLess(P[p], P[q]);
    }
  }

  /** The atom-index pairs: `[atoms[i], atoms[j]]` for every index pair `(i, j)`. */
  function AtomPairs(atoms: seq<nat>): (r: seq<(nat, nat)>)
    ensures |r| == |IndexPairs(|atoms|)| == |atoms| * (|atoms| - 1) / 2
  {
    var P := IndexPairs(|atoms|);
    IndexPairsShape(|atoms|);
    seq(|P|, t requires 0 <= t < |P| => (atoms[P[t].0], atoms[P[t].1]))
  }

  lemma AtomPairsAt(atoms: seq<nat>, t: nat)
    requires t < |IndexPairs(|atoms|)|
    ensures IndexPairs(|atoms|)[t].0 < IndexPairs(|atoms|)[t].1 < |atoms|
    ensures AtomPairs(atoms)[t] == (atoms[IndexPairs(|atoms|)[t].0], atoms[IndexPairs(|atoms|)[t].1])
  {
    IndexPairsShape(|atoms|);
  }

  /** `[f'index {i}' for i in column]` */
  function IndexSelections(column: seq<nat>): (r: seq<string>)
    ensures |r| == |column|
  {
    seq(|column|, t requires 0 <= t < |column| => "index " + NatToString(column[t]))
  }

  function Firsts(pairs: seq<(nat, nat)>): seq<nat>
  {
    seq(|pairs|, t requires 0 <= t < |pairs| => pairs[t].0)
  }

  function Seconds(pairs: seq<(nat, nat)>): seq<nat>
  {
    seq(|pairs|, t requires 0 <= t < |pairs| => pairs[t].1)
  }

  /** The number a selection `'index <digits>'` names. */
  function SelectedIndex(sel: string): nat
  {
    if |sel| >= 6 then DigitsValue(sel[6..]) else 0
  }

  /** The two selection lists have one entry per atom pair, and entry `t` of each names,
      recoverably, the first and the second atom of pair `t`, whose positions in the
      sub-sampled list satisfy `i < j`. */
  lemma SelectionsNamePairs(atoms: seq<nat>)
    ensures var P, sel1, sel2 := IndexPairs(|atoms|), IndexSelections(Firsts(AtomPairs(atoms))),
                                 IndexSelections(Seconds(AtomPairs(atoms)));
      |sel1| == |sel2| == |atoms| * (|atoms| - 1) / 2
      && forall t :: 0 <= t < |sel1| ==>
           P[t].0 < P[t].1 < |atoms|
           && SelectedIndex(sel1[t]) == atoms[P[t].0]
           && SelectedIndex(sel2[t]) == atoms[P[t].1]
  {
    var P := IndexPairs(|atoms|);
    IndexPairsShape(|atoms|);
    var A := AtomPairs(atoms);
    var sel1, sel2 := IndexSelections(Firsts(A)), IndexSelections(Seconds(A));
    forall t | 0 <= t < |sel1|
      ensures SelectedIndex(sel1[t]) == atoms[P[t].0] && SelectedIndex(sel2[t]) == atoms[P[t].1]
    {
      assert sel1[t][6..] == NatToString(atoms[P[t].0]);
      assert sel2[t][6..] == NatToString(atoms[P[t].1]);
      NatToStringRoundTrip(atoms[P[t].0]);
      NatToStringRoundTrip(atoms[P[t].1]);
    }
  }

  /** `compute_projections(mol, projection_method, **kwargs)`; `None` when the method is
      neither of the two built-in ones. */
  function Project(mol: Molecule, projectionMethod: string, kwargs: map<string, Value>,
                   env: Env): (r: Result<Option<Matrix>>)
    ensures (r.Ok? && r.value.None?) <==>
      (mol.numFrames > 0 && NumAtoms(mol) > 0 && projectionMethod != "Distances" && projectionMethod != "Dihedrals")
  {
    if mol.numFrames == 0 then Err(NoFrames)
    else if NumAtoms(mol) == 0 then Err(NoAtoms)
    else if projectionMethod == "Distances" then
      var sele := GetOr(kwargs, "sele", VStr("protein and name CA"));
      var step := GetOr(kwargs, "step", VInt(1));
      var metric := GetOr(kwargs, "metric", VStr("distances"));
      if metric != VStr("distances") && metric != VStr("contacts") then Err(InvalidMetric(metric))
      else
        match Stride(env.atomSelect(mol, sele), step)
        case Err(e) => Err(e)
        case Ok(atoms) =>
          var pairs := AtomPairs(atoms);
          match env.distances(mol, IndexSelections(Firsts(pairs)), IndexSelections(Seconds(pairs)), metric.s)
          case Err(e) => Err(e)
          case Ok(m) => Ok(Some(m))
    else if projectionMethod == "Dihedrals" then
      var dihedrals := GetOr(kwargs, "dihedrals", VNames(["phi", "psi"]));
      var sincos := GetOr(kwargs, "sincos", VBool(false));
      match env.dihedrals(mol, dihedrals, sincos)
      case Err(e) => Err(e)
      case Ok(m) => Ok(Some(m))
    else Ok(None)
  }

  /** Emptiness is checked first, frames before atoms, whatever the method. */
  lemma ProjectGuards(mol: Molecule, projectionMethod: string, kwargs: map<string, Value>, env: Env)
    ensures mol.numFrames == 0 ==> Project(mol, projectionMethod, kwargs, env) == Err(NoFrames)
    ensures mol.numFrames > 0 && NumAtoms(mol) == 0 ==> Project(mol, projectionMethod, kwargs, env) == Err(NoAtoms)
  {
  }

  /** With no keyword arguments, distances are measured between every pair of the atoms
      `'protein and name CA'` selects, with the 'distances' metric; dihedrals default to
      phi and psi without sine/cosine expansion. */
  lemma ProjectDefaults(mol: Molecule, env: Env)
    requires mol.numFrames > 0 && NumAtoms(mol) > 0
    ensures var all := env.atomSelect(mol, VStr("protein and name CA"));
      Project(mol, "Distances", map[], env)
        == match env.distances(mol, IndexSelections(Firsts(AtomPairs(all))),
                               IndexSelections(Seconds(AtomPairs(all))), "distances")
           case Err(e) => Err(e)
           case Ok(m) => Ok(Some(m))
    ensures Project(mol, "Dihedrals", map[], env)
        == match env.dihedrals(mol, VNames(["phi", "psi"]), VBool(false))
           case Err(e) => Err(e)
           case Ok(m) => Ok(Some(m))
  {
    var all := env.atomSelect(mol, VStr("protein and name CA"));
    assert StrideFrom(all, 1) == all by {
      forall t | 0 <= t < |all| ensures StrideFrom(all, 1)[t] == all[t] {
        assert t * 1 == t;
      }
    }
  }

  /** A metric other than 'distances' or 'contacts' is refused before any atom is
      selected. */
  lemma ProjectRejectsMetric(mol: Molecule, kwargs: map<string, Value>, env: Env)
    requires mol.numFrames > 0 && NumAtoms(mol) > 0
    requires "metric" in kwargs && kwargs["metric"] != VStr("distances") && kwargs["metric"] != VStr("contacts")
    ensures Project(mol, "Distances", kwargs, env) == Err(InvalidMetric(kwargs["metric"]))
  {
  }

  /** The first `|done|` rows of the table hold the atoms of the index pairs `done`. */
  ghost predicate Filled(pairs: array2<nat>, atoms: seq<nat>, done: seq<(nat, nat)>)
    reads pairs
  {
    pairs.Length1 == 2 && |done| <= pairs.Length0
    && forall t :: 0 <= t < |done| ==>
         done[t].0 < |atoms| && done[t].1 < |atoms|
         && pairs[t, 0] == atoms[done[t].0] && pairs[t, 1] == atoms[done[t].1]
  }

  /** The nested loops that fill the `(dim, 2)` pair table. */
  method BuildPairs(atoms: seq<nat>) returns (pairs: array2<nat>)
    ensures fresh(pairs)
    ensures pairs.Length0 == |atoms| * (|atoms| - 1) / 2 && pairs.Length1 == 2
    ensures forall t :: 0 <= t < pairs.Length0 ==>
      pairs[t, 0] == AtomPairs(atoms)[t].0 && pairs[t, 1] == AtomPairs(atoms)[t].1
  {
    var n := |atoms|;
    ghost var all := IndexPairs(n);
    var dim := n * (n - 1) / 2;
    PairsFromCount(0, n);
    pairs := new nat[dim, 2];
    ghost var done: seq<(nat, nat)> := [];
    var k := 0;
    for i := 0 to n
      invariant k == |done|
      invariant done + PairsFrom(i, n) == all
      invariant Filled(pairs, atoms, done)
    {
      k, done := FillRow(atoms, pairs, i, k, done, all);
    }
    assert done == all;
    forall t | 0 <= t < dim ensures pairs[t, 0] == AtomPairs(atoms)[t].0 && pairs[t, 1] == AtomPairs(atoms)[t].1 {
      AtomPairsAt(atoms, t);
    }
  }

  /** The inner loop: row `i` of the enumeration, `(i, j)` for `i < j < n`. */
  method FillRow(atoms: seq<nat>, pairs: array2<nat>, i: nat, k0: nat,
                 ghost done0: seq<(nat, nat)>, ghost all: seq<(nat, nat)>)
    returns (k: nat, ghost done: seq<(nat, nat)>)
    requires i < |atoms| && k0 == |done0| && |all| == pairs.Length0
    requires done0 + RowFrom(i, i + 1, |atoms|) + PairsFrom(i + 1, |atoms|) == all
    requires Filled(pairs, atoms, done0)
    modifies pairs
    ensures k == |done| && done + PairsFrom(i + 1, |atoms|) == all
    ensures Filled(pairs, atoms, done)
  {
    var n := |atoms|;
    k, done := k0, done0;
    for j := i + 1 to n
      invariant k == |done|
      invariant done + RowFrom(i, j, n) + PairsFrom(i + 1, n) == all
      invariant Filled(pairs, atoms, done)
    {
      assert k < pairs.Length0 by {
        assert |all| == |done| + |RowFrom(i, j, n)| + |PairsFrom(i + 1, n)|;
      }
      assert RowFrom(i, j, n) == [(i, j)] + RowFrom(i, j + 1, n);
      assert (done + [(i, j)]) + RowFrom(i, j + 1, n) == done + RowFrom(i, j, n);
      label Before:
      pairs[k, 0] := atoms[i];
      pairs[k, 1] := atoms[j];
      assert forall t :: 0 <= t < k ==>
        pairs[t, 0] == old@Before(pairs[t, 0]) && pairs[t, 1] == old@Before(pairs[t, 1]);
      done := done + [(i, j)];
      k := k + 1;
    }
    assert RowFrom(i, n, n) == [];
  }

  /** `function compute_projections`, computed with the nested loops and array columns. */
  method ComputeProjections(mol: Molecule, projectionMethod: string, kwargs: map<string, Value>,
                            env: Env) returns (r: Result<Option<Matrix>>)
    ensures r == Project(mol, projectionMethod, kwargs, env)
  {
    if mol.numFrames == 0 {
      return Err(NoFrames);
    }
    if NumAtoms(mol) == 0 {
      return Err(NoAtoms);
    }
    if projectionMethod == "Distances" {
      var sele := GetOr(kwargs, "sele", VStr("protein and name CA"));
      var step := GetOr(kwargs, "step", VInt(1));
      var metric := GetOr(kwargs, "metric", VStr("distances"));
      if metric != VStr("distances") && metric != VStr("contacts") {
        return Err(InvalidMetric(metric));
      }
      var allAtoms := env.atomSelect(mol, sele);
      var strided := Stride(allAtoms, step);
      if strided.Err? {
        return Err(strided.error);
      }
      var atoms := strided.value;
      var pairs := BuildPairs(atoms);
      var col0 := seq(pairs.Length0, t requires 0 <= t < pairs.Length0 reads pairs => pairs[t, 0]);
      var col1 := seq(pairs.Length0, t requires 0 <= t < pairs.Length0 reads pairs => pairs[t, 1]);
      assert col0 == Firsts(AtomPairs(atoms)) && col1 == Seconds(AtomPairs(atoms)) by {
        var A := AtomPairs(atoms);
        assert |col0| == |A| && |col1| == |A|;
        forall t | 0 <= t < |A| ensures col0[t] == A[t].0 && col1[t] == A[t].1 {
        }
      }
      var projection := env.distances(mol, IndexSelections(col0), IndexSelections(col1), metric.s);
      if projection.Err? {
        return Err(projection.error);
      }
      return Ok(Some(projection.value));
    } else if projectionMethod == "Dihedrals" {
      var dihedrals := GetOr(kwargs, "dihedrals", VNames(["phi", "psi"]));
      var sincos := GetOr(kwargs, "sincos", VBool(false));
      var projection := env.dihedrals(mol, dihedrals, sincos);
      if projection.Err? {
        return Err(projection.error);
      }
      return Ok(Some(projection.value));
    }
    return Ok(None);
  }
}
