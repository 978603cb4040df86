/** Intrinsic dimension per secondary-structure element
    (md_intrinsic_dimension/secondary_structure_id.py): a one-frame reference structure is
    checked against the trajectory's topology, DSSP labels its residues, runs of equal
    labels become segments, and every segment of at least two residues is estimated by the
    md engine. */
module SecondaryStructure {
  import opened Common
  import opened PySeq
  import opened ComputeId
  import opened ProjectionDispatch
  import MdEngine
  import SectionId

  /** The `mol_ref` argument: None, the default (the Molecule class itself), or a molecule. */
  datatype RefArg = RefNone | RefClass | RefMol(ref: Molecule)

  /** The atom fields compared between the molecule and its reference, in order. */
  const ComparedKeys: seq<string> := ["name", "resid", "resname", "chain", "segid"]

  predicate FieldAgrees(a: Atom, b: Atom, key: string)
  {
    if key == "name" then a.name == b.name
    else if key == "resid" then a.resid == b.resid
    else if key == "resname" then a.resname == b.resname
    else if key == "chain" then a.chain == b.chain
    else a.segid == b.segid
  }

  /** `(mol.get(key) == mol_ref.get(key)).all()` */
  predicate KeyAgrees(m: Molecule, r: Molecule, key: string)
    requires |m.atoms| == |r.atoms|
  {
    forall i :: 0 <= i < |m.atoms| ==> FieldAgrees(m.atoms[i], r.atoms[i], key)
  }

  /** The position of the first key on which the two molecules differ. */
  function FirstMismatch(m: Molecule, r: Molecule, keys: seq<string>): (j: Option<nat>)
    requires |m.atoms| == |r.atoms|
    ensures j.None? <==> forall i :: 0 <= i < |keys| ==> KeyAgrees(m, r, keys[i])
    ensures j.Some? ==> j.value < |keys| && !KeyAgrees(m, r, keys[j.value])
                        && forall i :: 0 <= i < j.value ==> KeyAgrees(m, r, keys[i])
  {
    if keys == [] then None
    else if !KeyAgrees(m, r, keys[0]) then Some(0)
    else
      match FirstMismatch(m, r, keys[1..])
      case None => None
      case Some(j) => Some(j + 1)
  }

  /** Two atoms that agree on every compared field (coordinates may differ). */
  predicate SameIdentity(a: Atom, b: Atom)
  {
    a.name == b.name && a.resid == b.resid && a.resname == b.resname && a.chain == b.chain && a.segid == b.segid
  }

  /** The reference checks: present, a molecule, at most one frame, as many atoms as the
      trajectory's topology, then each compared field in turn. */
  function ValidateReference(mol: Molecule, ref: RefArg): (r: Result<Molecule>)
    ensures ref.RefNone? ==> r == Err(MissingReference)
    ensures ref.RefClass? ==> r == Err(ReferenceNotMolecule)
    ensures ref.RefMol? && ref.ref.numFrames > 1 ==> r == Err(ReferenceMultiFrame)
    ensures ref.RefMol? && ref.ref.numFrames <= 1 && NumAtoms(mol) != NumAtoms(ref.ref) ==> r == Err(AtomCountMismatch)
    ensures r.Ok? ==> ref.RefMol? && r.value == ref.ref
    ensures r.Err? && r.error.FieldMismatch? ==> r.error.key in ComparedKeys
  {
    match ref
    case RefNone => Err(MissingReference)
    case RefClass => Err(ReferenceNotMolecule)
    case RefMol(rm) =>
      if rm.numFrames > 1 then Err(ReferenceMultiFrame)
      else if NumAtoms(mol) != NumAtoms(rm) then Err(AtomCountMismatch)
      else
        match FirstMismatch(mol, rm, ComparedKeys)
        case Some(j) => Err(FieldMismatch(ComparedKeys[j]))
        case None => Ok(rm)
  }

  /** A molecule is accepted as reference exactly when it has at most one frame and the
      same atoms as the trajectory's topology, field by field. */
  lemma ValidReference(mol: Molecule, rm: Molecule)
    ensures ValidateReference(mol, RefMol(rm)).Ok? <==>
      rm.numFrames <= 1 && |mol.atoms| == |rm.atoms|
      && forall i :: 0 <= i < |mol.atoms| ==> SameIdentity(mol.atoms[i], rm.atoms[i])
  {
    if rm.numFrames <= 1 && |mol.atoms| == |rm.atoms| {
      var keysAgree := forall k :: 0 <= k < |ComparedKeys| ==> KeyAgrees(mol, rm, ComparedKeys[k]);
      if keysAgree {
        forall i | 0 <= i < |mol.atoms| ensures SameIdentity(mol.atoms[i], rm.atoms[i]) {
          assert KeyAgrees(mol, rm, ComparedKeys[0]) && KeyAgrees(mol, rm, ComparedKeys[1])
              && KeyAgrees(mol, rm, ComparedKeys[2]) && KeyAgrees(mol, rm, ComparedKeys[3])
              && KeyAgrees(mol, rm, ComparedKeys[4]);
        }
      } else {
        var k :| 0 <= k < |ComparedKeys| && !KeyAgrees(mol, rm, ComparedKeys[k]);
        var i :| 0 <= i < |mol.atoms| && !FieldAgrees(mol.atoms[i], rm.atoms[i], ComparedKeys[k]);
        assert !SameIdentity(mol.atoms[i], rm.atoms[i]);
      }
    }
  }

  /** A field mismatch names the first compared field on which some atom differs. */
  lemma FieldMismatchIsFirst(mol: Molecule, rm: Molecule, key: string)
    requires ValidateReference(mol, RefMol(rm)) == Err(FieldMismatch(key))
    ensures |mol.atoms| == |rm.atoms| && rm.numFrames <= 1
    ensures exists j :: 0 <= j < |ComparedKeys| && ComparedKeys[j] == key && !KeyAgrees(mol, rm, ComparedKeys[j])
                        && forall i :: 0 <= i < j ==> KeyAgrees(mol, rm, ComparedKeys[i])
  {
    var j := FirstMismatch(mol, rm, ComparedKeys).value;
    assert ComparedKeys[j] == key;
  }

  /** One row of `secStr_table`. */
  datatype Row = Row(resid: int, resname: string, ssType: Label)

  /** The DataFrame of the reference's CA atoms and the DSSP labels of its first frame;
      columns of different lengths are refused. */
  function BuildTable(ref: Molecule, labels: seq<Label>, env: Env): (r: Result<seq<Row>>)
    ensures r.Ok? <==> |labels| == |Select(ref.atoms, "name CA", env)|
    ensures r.Err? ==> r.error == TableLengthMismatch
    ensures r.Ok? ==> var ca := Select(ref.atoms, "name CA", env);
      |r.value| == |ca| && forall i :: 0 <= i < |ca| ==>
        r.value[i].resid == ca[i].resid && r.value[i].resname == ca[i].resname && r.value[i].ssType == labels[i]
  {
    var ca := Select(ref.atoms, "name CA", env);
    if |labels| != |ca| then Err(TableLengthMismatch)
    else Ok(seq(|ca|, i requires 0 <= i < |ca| => Row(ca[i].resid, ca[i].resname, labels[i])))
  }

  /** The maximal runs of equal labels among the first `n` rows, as inclusive row-index
      ranges, built row by row as the scan over the table does: a row with its
      predecessor's label extends the current run, any other row opens a new one. The
      runs tile those rows in order. */
  function Spans(t: seq<Row>, n: nat): (sp: seq<(int, int)>)
    requires 1 <= n <= |t|
    ensures |sp| >= 1 && sp[0].0 == 0 && sp[|sp| - 1].1 == n - 1
    ensures forall k :: 0 <= k < |sp| ==> 0 <= sp[k].0 <= sp[k].1 < n
  {
    if n == 1 then [(0, 0)]
    else
      var p := Spans(t, n - 1);
      if t[n - 1].ssType == t[n - 2].ssType then p[..|p| - 1] + [(p[|p| - 1].0, n - 1)]
      else p + [(n - 1, n - 1)]
  }

  /** Each run starts on the row after the previous run ends. */
  lemma {:induction false} SpansAdjacent(t: seq<Row>, n: nat)
    requires 1 <= n <= |t|
    ensures forall k :: 1 <= k < |Spans(t, n)| ==> Spans(t, n)[k].0 == Spans(t, n)[k - 1].1 + 1
  {
    if n > 1 {
      SpansAdjacent(t, n - 1);
      var p, sp := Spans(t, n - 1), Spans(t, n);
      forall k | 1 <= k < |sp| ensures sp[k].0 == sp[k - 1].1 + 1 {
        if k < |p| - 1 {
          assert sp[k] == p[k] && sp[k - 1] == p[k - 1];
        } else {
          assert sp[k - 1] == p[k - 1];
        }
      }
    }
  }

  /** Every row of a run carries the run's label ... */
  lemma {:induction false} SpansConstant(t: seq<Row>, n: nat)
    requires 1 <= n <= |t|
    ensures forall k, j :: 0 <= k < |Spans(t, n)| && Spans(t, n)[k].0 <= j <= Spans(t, n)[k].1 ==>
      t[j].ssType == t[Spans(t, n)[k].1].ssType
  {
    if n > 1 {
      SpansConstant(t, n - 1);
      var p, sp := Spans(t, n - 1), Spans(t, n);
      forall k, j | 0 <= k < |sp| && sp[k].0 <= j <= sp[k].1 ensures t[j].ssType == t[sp[k].1].ssType {
        if k < |p| - 1 || (k == |p| - 1 && t[n - 1].ssType != t[n - 2].ssType) {
          assert sp[k] == p[k];
        }
      }
    }
  }

  /** ... and neighbouring runs carry different labels, so no run can be extended. */
  lemma {:induction false} SpansMaximal(t: seq<Row>, n: nat)
    requires 1 <= n <= |t|
    ensures forall k :: 0 <= k < |Spans(t, n)| - 1 ==> t[Spans(t, n)[k].1].ssType != t[Spans(t, n)[k + 1].0].ssType
  {
    if n > 1 {
      SpansMaximal(t, n - 1);
      var p, sp := Spans(t, n - 1), Spans(t, n);
      forall k | 0 <= k < |sp| - 1 ensures t[sp[k].1].ssType != t[sp[k + 1].0].ssType {
        if k < |p| - 1 {
          assert sp[k] == p[k] && sp[k + 1].0 == p[k + 1].0;
        }
      }
    }
  }

  /** The number of label changes between neighbouring rows among the first `n`. */
  function Changes(t: seq<Row>, n: nat): nat
    requires n <= |t|
  {
    if n <= 1 then 0
    else Changes(t, n - 1) + (if t[n - 1].ssType != t[n - 2].ssType then 1 else 0)
  }

  /** There is one run more than there are label changes. */
  lemma {:induction false} SpansCount(t: seq<Row>, n: nat)
    requires 1 <= n <= |t|
    ensures |Spans(t, n)| == 1 + Changes(t, n)
  {
    if n > 1 {
      SpansCount(t, n - 1);
    }
  }

  /** One element of `secStr_sequence`: first and last residue id of a run, and its label. */
  datatype Segment = Segment(start: int, end: int, ssType: Label)

  /** The runs as segments. */
  function RunSegments(t: seq<Row>): (segs: seq<Segment>)
    requires t != []
    ensures |segs| == |Spans(t, |t|)|
  {
    var sp := Spans(t, |t|);
    seq(|sp|, k requires 0 <= k < |sp| => Segment(t[sp[k].0].resid, t[sp[k].1].resid, t[sp[k].1].ssType))
  }

  /** The segments cover the table from its first to its last residue id; each names the
      label of every row of its run, and consecutive segments differ in label. */
  lemma RunSegmentsMeaning(t: seq<Row>)
    requires t != []
    ensures var segs, sp := RunSegments(t), Spans(t, |t|);
      segs[0].start == t[0].resid && segs[|segs| - 1].end == t[|t| - 1].resid
      && (forall k, j :: 0 <= k < |segs| && sp[k].0 <= j <= sp[k].1 ==> t[j].ssType == segs[k].ssType)
      && (forall k :: 0 <= k < |segs| - 1 ==> segs[k].ssType != segs[k + 1].ssType)
      && |segs| == 1 + Changes(t, |t|)
  {
    SpansConstant(t, |t|);
    SpansMaximal(t, |t|);
    SpansCount(t, |t|);
    var segs, sp := RunSegments(t), Spans(t, |t|);
    forall k | 0 <= k < |segs| - 1 ensures segs[k].ssType != segs[k + 1].ssType {
      assert t[sp[k + 1].0].ssType == t[sp[k + 1].1].ssType;
    }
  }

  /** `list(zip(start, end, ss_type))` */
  function Zip3(starts: seq<int>, ends: seq<int>, types: seq<Label>): (r: seq<Segment>)
    ensures |r| == Min(|starts|, Min(|ends|, |types|))
    ensures forall k :: 0 <= k < |r| ==> r[k] == Segment(starts[k], ends[k], types[k])
  {
    var n := Min(|starts|, Min(|ends|, |types|));
    seq(n, k requires 0 <= k < n => Segment(starts[k], ends[k], types[k]))
  }

  /** What the scan has built after the rows before `i`: one start, end and label per
      closed run, and the start of the open one. */
  predicate RunScanInvariant(table: seq<Row>, i: nat, starts: seq<int>, ends: seq<int>, types: seq<Label>, ssStart: int)
    requires 1 <= i <= |table|
  {
    var sp := Spans(table, i);
    |starts| == |ends| == |types| == |sp| - 1
    && (forall k :: 0 <= k < |starts| ==>
          starts[k] == table[sp[k].0].resid && ends[k] == table[sp[k].1].resid && types[k] == table[sp[k].1].ssType)
    && ssStart == table[sp[|sp| - 1].0].resid
  }

  /** One step of the scan keeps its state. */
  lemma ScanStep(table: seq<Row>, i: nat, starts: seq<int>, ends: seq<int>, types: seq<Label>, ssStart: int)
    requires 1 <= i < |table|
    requires RunScanInvariant(table, i, starts, ends, types, ssStart)
    ensures table[i].ssType != table[i - 1].ssType ==>
      RunScanInvariant(table, i + 1, starts + [ssStart], ends + [table[i - 1].resid], types + [table[i - 1].ssType], table[i].resid)
    ensures table[i].ssType == table[i - 1].ssType ==>
      RunScanInvariant(table, i + 1, starts, ends, types, ssStart)
  {
    var sp0, sp := Spans(table, i), Spans(table, i + 1);
    if table[i].ssType != table[i - 1].ssType {
      var starts', ends', types' := starts + [ssStart], ends + [table[i - 1].resid], types + [table[i - 1].ssType];
      forall k | 0 <= k < |starts'|
        ensures starts'[k] == table[sp[k].0].resid && ends'[k] == table[sp[k].1].resid && types'[k] == table[sp[k].1].ssType
      {
        assert sp[k] == sp0[k];
      }
    } else {
      forall k | 0 <= k < |starts|
        ensures starts[k] == table[sp[k].0].resid && ends[k] == table[sp[k].1].resid && types[k] == table[sp[k].1].ssType
      {
        assert sp[k] == sp0[k];
      }
    }
  }

  /** The run-length scan over the table; `iloc[0]` of an empty table raises IndexError. */
  method RunLengths(table: seq<Row>) returns (r: Result<seq<Segment>>)
    ensures table == [] ==> r == Err(EmptyTable)
    ensures table != [] ==> r == Ok(RunSegments(table))
  {
    if |table| == 0 {
      return Err(EmptyTable);
    }
    var starts: seq<int> := [];
    var ends: seq<int> := [];
    var types: seq<Label> := [];
    var ssStart := table[0].resid;
    for i := 1 to |table|
      invariant RunScanInvariant(table, i, starts, ends, types, ssStart)
    {
      var current := table[i].ssType;
      var previous := table[i - 1].ssType;
      ghost var (starts0, ends0, types0, ssStart0) := (starts, ends, types, ssStart);
      if current != previous {
        var ssEnd := table[i - 1].resid;
        starts := starts + [ssStart];
        ends := ends + [ssEnd];
        ssStart := table[i].resid;
        types := types + [previous];
      }
      ScanStep(table, i, starts0, ends0, types0, ssStart0);
    }
    ZipIsRunSegments(table, starts, ends, types, ssStart);
    r := Ok(Zip3(starts + [ssStart], ends + [table[|table| - 1].resid], types + [table[|table| - 1].ssType]));
  }

  /** Closing the last run after the scan yields exactly the run segments. */
  lemma ZipIsRunSegments(table: seq<Row>, starts: seq<int>, ends: seq<int>, types: seq<Label>, ssStart: int)
    requires table != []
    requires RunScanInvariant(table, |table|, starts, ends, types, ssStart)
    ensures Zip3(starts + [ssStart], ends + [table[|table| - 1].resid], types + [table[|table| - 1].ssType])
            == RunSegments(table)
  {
    var z := Zip3(starts + [ssStart], ends + [table[|table| - 1].resid], types + [table[|table| - 1].ssType]);
    var segs := RunSegments(table);
    forall k | 0 <= k < |segs| ensures z[k] == segs[k] {
    }
  }

  /** The segments the loop estimates: at least two residue ids apart; the others are
      skipped with a warning. */
  function Processed(segs: seq<Segment>): (p: seq<Segment>)
    ensures forall s :: s in p ==> s in segs && s.end - s.start >= 1
    ensures forall s :: s in segs && s.end - s.start >= 1 ==> s in p
    ensures |p| <= |segs|
  {
    if segs == [] then []
    else
      var init := Processed(segs[..|segs| - 1]);
      var s := segs[|segs| - 1];
      assert forall x :: x in segs <==> x in segs[..|segs| - 1] || x == s;
      if s.end - s.start >= 1 then init + [s] else init
  }

  /** The processed segments of a prefix are a prefix of the processed segments. */
  lemma {:induction false} ProcessedPrefix(segs: seq<Segment>, i: nat)
    requires i <= |segs|
    ensures |Processed(segs[..i])| <= |Processed(segs)|
    ensures Processed(segs)[..|Processed(segs[..i])|] == Processed(segs[..i])
    decreases |segs|
  {
    if i < |segs| {
      var init := segs[..|segs| - 1];
      assert init[..i] == segs[..i];
      ProcessedPrefix(init, i);
    } else {
      assert segs[..i] == segs;
    }
  }

  /** One row of the result table. */
  datatype SegmentRow = SegmentRow(start: int, end: int, ssType: Label, window: seq<int>,
                                   entire: Float, lastSim: Float, instantaneous: seq<real>)

  /** What every segment shares: how its molecule is cut out, how it is estimated with a
      given id-kwargs dictionary, and how its CA residue ids are read. */
  datatype Ctx = Ctx(window: (int, int) -> Molecule,
                     estimate: (Molecule, map<string, Value>) -> Result<IdOutput>,
                     caResids: Molecule -> seq<int>)

  /** `window_mol = mol.copy(); window_mol.filter(f'resid {start} to {end}')`, the md engine
      on it, local or global, and `window_mol.get('resid', 'name CA')`. */
  function Context(mol: Molecule, pm: ProjectionMethod, idMethod: string, pk: map<string, Value>, env: Env): Ctx
  {
    Ctx((start, end) => Filter(mol, SectionId.WindowSelection(start, end), env),
        (m, ik) => MdEngine.Estimate("", "", Some(m), pm, SectionId.EngineMethod(idMethod), pk, ik, env),
        m => GetResids(m, "name CA", env))
  }

  /** The same context with the md engine as written, which the source's loop calls. */
  function ContextAsWritten(mol: Molecule, pm: ProjectionMethod, idMethod: string, pk: map<string, Value>,
                            env: Env): Ctx
  {
    Ctx((start, end) => Filter(mol, SectionId.WindowSelection(start, end), env),
        (m, ik) => MdEngine.EstimateAsWritten("", "", Some(m), pm, SectionId.EngineMethod(idMethod), pk, ik, env),
        m => GetResids(m, "name CA", env))
  }

  function RowOf(seg: Segment, window: seq<int>, out: IdOutput): SegmentRow
  {
    match out
    case LocalOut(all, last, series) => SegmentRow(seg.start, seg.end, seg.ssType, window, all, last, series)
    case GlobalOut(gid, gidLast) => SegmentRow(seg.start, seg.end, seg.ssType, window, gid, gidLast, [])
  }

  /** One processed segment, estimated with the id kwargs `ik`. */
  function EstimateSegment(c: Ctx, ik: map<string, Value>, seg: Segment): Result<SegmentRow>
  {
    var wm := c.window(seg.start, seg.end);
    match c.estimate(wm, ik)
    case Err(e) => Err(e)
    case Ok(out) => Ok(RowOf(seg, c.caResids(wm), out))
  }

  function Step(c: Ctx, ik: map<string, Value>): Segment -> Result<SegmentRow>
  {
    seg => EstimateSegment(c, ik, seg)
  }

  /** The segment loop as intended: every processed segment is estimated with the caller's
      id kwargs. */
  function SegmentRows(c: Ctx, segs: seq<Segment>, ik: map<string, Value>): Result<seq<SegmentRow>>
  {
    Collect(Step(c, ik), Processed(segs))
  }

  /** What the written loop leaves behind: its rows, and what is left of the id-kwargs
      dictionary it hands to every engine call. */
  datatype ScanState = ScanState(rows: Result<seq<SegmentRow>>, kwargs: map<string, Value>)

  /** The segment loop as written: the same dictionary object goes to every engine call,
      and the md engine pops `estimator` and `last` out of it, so only the first processed
      segment sees them. */
  function SegmentRowsAsWritten(c: Ctx, segs: seq<Segment>, ik: map<string, Value>): ScanState
  {
    if segs == [] then ScanState(Ok([]), ik)
    else
      var st := SegmentRowsAsWritten(c, segs[..|segs| - 1], ik);
      var seg := segs[|segs| - 1];
      if st.rows.Err? || seg.end - seg.start < 1 then st
      else
        ScanState(match EstimateSegment(c, st.kwargs, seg)
                  case Err(e) => Err(e)
                  case Ok(row) => Ok(st.rows.value + [row]),
                  st.kwargs - MdEngine.ConsumedKeys)
  }

  /** Once the written loop has failed, later segments change nothing. */
  lemma {:induction false} AsWrittenErrorPersists(c: Ctx, segs: seq<Segment>, ik: map<string, Value>, n: nat)
    requires n <= |segs|
    requires SegmentRowsAsWritten(c, segs[..n], ik).rows.Err?
    ensures SegmentRowsAsWritten(c, segs, ik) == SegmentRowsAsWritten(c, segs[..n], ik)
    decreases |segs|
  {
    if n < |segs| {
      var init := segs[..|segs| - 1];
      assert init[..n] == segs[..n];
      AsWrittenErrorPersists(c, init, ik, n);
    } else {
      assert segs[..n] == segs;
    }
  }

  /** The intended loop succeeds exactly when every processed segment's estimate does, and
      row `k` is then the estimate of the `k`-th processed segment with the caller's id
      kwargs. */
  lemma SegmentRowsMeaning(c: Ctx, segs: seq<Segment>, ik: map<string, Value>)
    ensures var p := Processed(segs);
      SegmentRows(c, segs, ik).Ok? <==> forall k :: 0 <= k < |p| ==> EstimateSegment(c, ik, p[k]).Ok?
    ensures var p := Processed(segs);
      SegmentRows(c, segs, ik).Ok? ==>
        |SegmentRows(c, segs, ik).value| == |p|
        && forall k :: 0 <= k < |p| ==> SegmentRows(c, segs, ik).value[k] == EstimateSegment(c, ik, p[k]).value
  {
    var p, f := Processed(segs), Step(c, ik);
    assert SegmentRows(c, segs, ik) == Collect(f, p);
    forall k | 0 <= k < |p| ensures f(p[k]) == EstimateSegment(c, ik, p[k]) { }
    CollectOkIff(f, p);
    if Collect(f, p).Ok? {
      CollectOk(f, p);
      var rows := Collect(f, p).value;
      forall k | 0 <= k < |p| ensures rows[k] == EstimateSegment(c, ik, p[k]).value {
        assert rows[k] == f(p[k]).value;
      }
    } else {
      var k :| 0 <= k < |p| && !f(p[k]).Ok?;
      assert !EstimateSegment(c, ik, p[k]).Ok?;
      assert !SegmentRows(c, segs, ik).Ok?;
      assert Processed(segs)[k] == p[k];
      assert !(forall j :: 0 <= j < |Processed(segs)| ==> EstimateSegment(c, ik, Processed(segs)[j]).Ok?);
    }
  }

  /** When the caller's id kwargs hold neither `estimator` nor `last`, popping changes
      nothing and the written loop computes the intended rows. */
  lemma {:induction false} AsWrittenAgreesWithoutSettings(c: Ctx, segs: seq<Segment>, ik: map<string, Value>)
    requires "estimator" !in ik && "last" !in ik
    ensures SegmentRowsAsWritten(c, segs, ik).kwargs == ik
    ensures SegmentRowsAsWritten(c, segs, ik).rows == SegmentRows(c, segs, ik)
  {
    assert ik - MdEngine.ConsumedKeys == ik;
    if segs != [] {
      var init := segs[..|segs| - 1];
      AsWrittenAgreesWithoutSettings(c, init, ik);
      var p := Processed(init);
      var seg := segs[|segs| - 1];
      if seg.end - seg.start >= 1 {
        assert (p + [seg])[..|p|] == p;
      }
    }
  }

  /** As written, of two processed segments the second is estimated with the popped
      dictionary: with an `estimator` given by the caller, the first segment uses it and
      the second falls back to TwoNN over the last 100 frames. */
  lemma SecondSegmentLosesSettingsAsWritten(c: Ctx, s1: Segment, s2: Segment, ik: map<string, Value>)
    requires s1.end - s1.start >= 1 && s2.end - s2.start >= 1
    requires EstimateSegment(c, ik, s1).Ok?
    ensures SegmentRowsAsWritten(c, [s1, s2], ik).rows ==
      match EstimateSegment(c, ik - MdEngine.ConsumedKeys, s2)
      case Err(e) => Err(e)
      case Ok(row) => Ok([EstimateSegment(c, ik, s1).value, row])
    ensures GetOr(ik - MdEngine.ConsumedKeys, "estimator", VStr("TwoNN")) == VStr("TwoNN")
    ensures GetOr(ik - MdEngine.ConsumedKeys, "last", VInt(100)) == VInt(100)
    ensures SegmentRows(c, [s1, s2], ik) ==
      match EstimateSegment(c, ik, s2)
      case Err(e) => Err(e)
      case Ok(row) => Ok([EstimateSegment(c, ik, s1).value, row])
  {
    var segs := [s1, s2];
    var none: seq<SegmentRow> := [];
    assert [s1][..0] == [] && segs[..1] == [s1];
    assert Processed([s1]) == [s1];
    assert Processed(segs) == segs;
    var row1 := EstimateSegment(c, ik, s1).value;
    var st0 := SegmentRowsAsWritten(c, [], ik);
    var st1 := SegmentRowsAsWritten(c, [s1], ik);
    assert st1 == ScanState(match EstimateSegment(c, st0.kwargs, s1)
                            case Err(e) => Err(e)
                            case Ok(row) => Ok(st0.rows.value + [row]),
                            st0.kwargs - MdEngine.ConsumedKeys);
    assert none + [row1] == [row1];
    assert st1 == ScanState(Ok([row1]), ik - MdEngine.ConsumedKeys);
    var st2 := SegmentRowsAsWritten(c, segs, ik);
    assert st2.rows == match EstimateSegment(c, st1.kwargs, s2)
                       case Err(e) => Err(e)
                       case Ok(row) => Ok(st1.rows.value + [row]);
    var f := Step(c, ik);
    assert Collect(f, [s1]) == Ok(none + [row1]);
    assert Collect(f, segs) == match f(s2)
                               case Err(e) => Err(e)
                               case Ok(row) => Ok([row1] + [row]);
    forall row: SegmentRow ensures [row1] + [row] == [row1, row] {
    }
    assert f(s2) == EstimateSegment(c, ik, s2);
  }

  /** As written, with the id method 'local' (the default) every kept segment raises in the
      md engine, so the written loop succeeds exactly when no segment is kept. */
  lemma {:induction false} LocalScanFailsAsWritten(mol: Molecule, pm: ProjectionMethod, pk: map<string, Value>,
                                                   env: Env, segs: seq<Segment>, ik: map<string, Value>)
    ensures SegmentRowsAsWritten(ContextAsWritten(mol, pm, "local", pk, env), segs, ik).rows.Ok?
            <==> Processed(segs) == []
    decreases |segs|
  {
    if segs != [] {
      var c := ContextAsWritten(mol, pm, "local", pk, env);
      var init, seg := segs[..|segs| - 1], segs[|segs| - 1];
      LocalScanFailsAsWritten(mol, pm, pk, env, init, ik);
      var st := SegmentRowsAsWritten(c, init, ik);
      if st.rows.Ok? && seg.end - seg.start >= 1 {
        var wm := c.window(seg.start, seg.end);
        MdEngine.LocalEstimateFailsAsWritten("", "", Some(wm), pm, pk, st.kwargs, env);
        assert !EstimateSegment(c, st.kwargs, seg).Ok?;
      }
    }
  }

  /** Everything before the segment loop: the input, the reference checks, DSSP on the
      reference, and the table. */
  function Prepare(topology: string, trajectory: string, mol: Option<Molecule>, ref: RefArg,
                   simplified: bool, env: Env): Result<(Molecule, seq<Row>)>
  {
    match LoadInput(topology, trajectory, mol, env, "Topology", "Trajectory")
    case Err(e) => Err(e)
    case Ok(m) =>
      match ValidateReference(m, ref)
      case Err(e) => Err(e)
      case Ok(rm) =>
        match env.dssp(rm, simplified)
        case Err(e) => Err(e)
        case Ok(labels) =>
          match BuildTable(rm, labels, env)
          case Err(e) => Err(e)
          case Ok(t) => Ok((m, t))
  }

  /** `secondary_structure_id(...)` with every segment estimated with the caller's id
      kwargs: the rows and the table. */
  function SecondaryStructureSpec(topology: string, trajectory: string, mol: Option<Molecule>, ref: RefArg,
                                  simplified: bool, pm: ProjectionMethod, idMethod: string,
                                  pk: map<string, Value>, ik: map<string, Value>, env: Env)
    : Result<(seq<SegmentRow>, seq<Row>)>
  {
    match Prepare(topology, trajectory, mol, ref, simplified, env)
    case Err(e) => Err(e)
    case Ok((m, t)) =>
      match TableRows(m, pm, idMethod, pk, env, t, ik)
      case Err(e) => Err(e)
      case Ok(rows) => Ok((rows, t))
  }

  /** The records of a residue table: its runs estimated one by one; an empty table has none. */
  function TableRows(m: Molecule, pm: ProjectionMethod, idMethod: string, pk: map<string, Value>,
                     env: Env, t: seq<Row>, ik: map<string, Value>): Result<seq<SegmentRow>>
  {
    if t == [] then Err(EmptyTable) else SegmentRows(Context(m, pm, idMethod, pk, env), RunSegments(t), ik)
  }

  /** `secondary_structure_id(...)` as written: its result, and what is left of the
      caller's id-kwargs dictionary afterwards. */
  function SecondaryStructureAsWritten(topology: string, trajectory: string, mol: Option<Molecule>, ref: RefArg,
                                       simplified: bool, pm: ProjectionMethod, idMethod: string,
                                       pk: map<string, Value>, ik: map<string, Value>, env: Env)
    : (Result<(seq<SegmentRow>, seq<Row>)>, map<string, Value>)
  {
    match Prepare(topology, trajectory, mol, ref, simplified, env)
    case Err(e) => (Err(e), ik)
    case Ok((m, t)) =>
      if t == [] then (Err(EmptyTable), ik)
      else
        var st := SegmentRowsAsWritten(ContextAsWritten(m, pm, idMethod, pk, env), RunSegments(t), ik);
        match st.rows
        case Err(e) => (Err(e), st.kwargs)
        case Ok(rows) => (Ok((rows, t)), st.kwargs)
  }

  /** The checks come in the source's order: input files, reference present, reference a
      molecule, one frame, atom count; DSSP and the table follow. */
  lemma CheckOrder(topology: string, trajectory: string, mol: Option<Molecule>, ref: RefArg,
                   simplified: bool, env: Env)
    ensures LoadInput(topology, trajectory, mol, env, "Topology", "Trajectory").Err? ==>
      Prepare(topology, trajectory, mol, ref, simplified, env).Err?
      && Prepare(topology, trajectory, mol, ref, simplified, env).error
         == LoadInput(topology, trajectory, mol, env, "Topology", "Trajectory").error
    ensures LoadInput(topology, trajectory, mol, env, "Topology", "Trajectory").Ok? && ref.RefNone? ==>
      Prepare(topology, trajectory, mol, ref, simplified, env) == Err(MissingReference)
    ensures LoadInput(topology, trajectory, mol, env, "Topology", "Trajectory").Ok? && ref.RefClass? ==>
      Prepare(topology, trajectory, mol, ref, simplified, env) == Err(ReferenceNotMolecule)
    ensures LoadInput(topology, trajectory, mol, env, "Topology", "Trajectory").Ok? && ref.RefMol?
            && ref.ref.numFrames > 1 ==>
      Prepare(topology, trajectory, mol, ref, simplified, env) == Err(ReferenceMultiFrame)
    ensures Prepare(topology, trajectory, mol, ref, simplified, env).Ok? ==>
      ref.RefMol? && env.dssp(ref.ref, simplified).Ok?
      && Prepare(topology, trajectory, mol, ref, simplified, env).value.0
         == LoadInput(topology, trajectory, mol, env, "Topology", "Trajectory").value
  {
  }

  /** The reference a caller gets by leaving `mol_ref` out, as written: the Molecule class
      itself. */
  function DefaultReferenceAsWritten(): RefArg
  {
    RefClass
  }

  /** The reference the package's own test expects an omitted `mol_ref` to be: none. */
  function DefaultReference(): RefArg
  {
    RefNone
  }

  /** As written, leaving `mol_ref` out never gives the missing-reference FileNotFoundError:
      the default class passes the `is None` test and is refused later. */
  lemma DefaultReferenceNotMissingAsWritten(topology: string, trajectory: string, mol: Option<Molecule>,
                                            simplified: bool, env: Env)
    requires LoadInput(topology, trajectory, mol, env, "Topology", "Trajectory").Ok?
    ensures Prepare(topology, trajectory, mol, DefaultReferenceAsWritten(), simplified, env) == Err(ReferenceNotMolecule)
    ensures ReferenceNotMolecule != MissingReference
  {
  }

  /** With no reference as the default, leaving `mol_ref` out is the FileNotFoundError the
      test expects. */
  lemma DefaultReferenceMissing(topology: string, trajectory: string, mol: Option<Molecule>,
                                simplified: bool, env: Env)
    requires LoadInput(topology, trajectory, mol, env, "Topology", "Trajectory").Ok?
    ensures Prepare(topology, trajectory, mol, DefaultReference(), simplified, env) == Err(MissingReference)
    ensures Kind(MissingReference) == FileNotFoundError
  {
  }

  /** As written, `secondary_structure_id` with the id method 'local' (the default) fails
      as soon as the table has a segment of two or more residue ids. */
  lemma LocalFailsAsWritten(topology: string, trajectory: string, mol: Option<Molecule>, ref: RefArg,
                            simplified: bool, pm: ProjectionMethod, pk: map<string, Value>,
                            ik: map<string, Value>, env: Env)
    requires Prepare(topology, trajectory, mol, ref, simplified, env).Ok?
    requires Prepare(topology, trajectory, mol, ref, simplified, env).value.1 != []
    ensures var t := Prepare(topology, trajectory, mol, ref, simplified, env).value.1;
      SecondaryStructureAsWritten(topology, trajectory, mol, ref, simplified, pm, "local", pk, ik, env).0.Ok?
      <==> Processed(RunSegments(t)) == []
  {
    var (m, t) := Prepare(topology, trajectory, mol, ref, simplified, env).value;
    LocalScanFailsAsWritten(m, pm, pk, env, RunSegments(t), ik);
  }

  /** A local run gives every row the per-frame series of its segment; any other id method
      is estimated globally, with an empty series. */
  lemma RowShape(mol: Molecule, pm: ProjectionMethod, idMethod: string, pk: map<string, Value>, env: Env,
                 ik: map<string, Value>, seg: Segment)
    requires EstimateSegment(Context(mol, pm, idMethod, pk, env), ik, seg).Ok?
    ensures var row := EstimateSegment(Context(mol, pm, idMethod, pk, env), ik, seg).value;
      row.start == seg.start && row.end == seg.end && row.ssType == seg.ssType
      && (idMethod != "local" ==> row.instantaneous == [])
  {
    var c := Context(mol, pm, idMethod, pk, env);
    var wm := c.window(seg.start, seg.end);
    var out := c.estimate(wm, ik).value;
    assert idMethod != "local" ==> out.GlobalOut?;
  }

  /** The body of the segment loop: filter the molecule to the segment, run the corrected md
      engine on it with the dictionary `kw`, and read the window's CA residue ids. */
  method SegmentBody(mol: Molecule, pm: ProjectionMethod, idMethod: string, pk: map<string, Value>,
                     env: Env, seg: Segment, kw: MdEngine.KwargsDict)
    returns (row: Result<SegmentRow>)
    modifies kw
    ensures row == EstimateSegment(Context(mol, pm, idMethod, pk, env), old(kw.entries), seg)
    ensures kw.entries == old(kw.entries) - MdEngine.ConsumedKeys
  {
    var windowMol := Filter(mol, SectionId.WindowSelection(seg.start, seg.end), env);
    var out := MdEngine.IntrinsicDimension("", "", Some(windowMol), pm, SectionId.EngineMethod(idMethod), pk, kw, env);
    if out.Err? {
      return Err(out.error);
    }
    row := Ok(RowOf(seg, GetResids(windowMol, "name CA", env), out.value));
  }

  /** One iteration of the written loop: a short segment is skipped; a failing estimate
      with what is left of the dictionary decides the whole result; otherwise its record
      is appended and the dictionary loses the consumed keys. */
  lemma AsWrittenStep(c: Ctx, segs: seq<Segment>, ik: map<string, Value>, i: nat,
                      rows: seq<SegmentRow>, kw: map<string, Value>)
    requires i < |segs|
    requires SegmentRowsAsWritten(c, segs[..i], ik) == ScanState(Ok(rows), kw)
    ensures segs[i].end - segs[i].start < 1 ==>
      SegmentRowsAsWritten(c, segs[..i + 1], ik) == ScanState(Ok(rows), kw)
    ensures segs[i].end - segs[i].start >= 1 && EstimateSegment(c, kw, segs[i]).Ok? ==>
      SegmentRowsAsWritten(c, segs[..i + 1], ik)
      == ScanState(Ok(rows + [EstimateSegment(c, kw, segs[i]).value]), kw - MdEngine.ConsumedKeys)
    ensures segs[i].end - segs[i].start >= 1 && EstimateSegment(c, kw, segs[i]).Err? ==>
      SegmentRowsAsWritten(c, segs, ik)
      == ScanState(Err(EstimateSegment(c, kw, segs[i]).error), kw - MdEngine.ConsumedKeys)
  {
    assert segs[..i + 1][..i] == segs[..i];
    if segs[i].end - segs[i].start >= 1 && EstimateSegment(c, kw, segs[i]).Err? {
      AsWrittenErrorPersists(c, segs, ik, i + 1);
    }
  }

  /** One iteration of the intended loop: a short segment is skipped; a failing estimate
      decides the whole result; otherwise its record is appended. */
  lemma SegmentsStep(c: Ctx, segs: seq<Segment>, ik: map<string, Value>, i: nat, rows: seq<SegmentRow>)
    requires i < |segs|
    requires Collect(Step(c, ik), Processed(segs[..i])) == Ok(rows)
    ensures segs[i].end - segs[i].start < 1 ==> Collect(Step(c, ik), Processed(segs[..i + 1])) == Ok(rows)
    ensures segs[i].end - segs[i].start >= 1 && EstimateSegment(c, ik, segs[i]).Ok? ==>
      Collect(Step(c, ik), Processed(segs[..i + 1])) == Ok(rows + [EstimateSegment(c, ik, segs[i]).value])
    ensures segs[i].end - segs[i].start >= 1 && EstimateSegment(c, ik, segs[i]).Err? ==>
      SegmentRows(c, segs, ik) == Err(EstimateSegment(c, ik, segs[i]).error)
  {
    assert segs[..i + 1][..i] == segs[..i];
    var seg := segs[i];
    if seg.end - seg.start >= 1 {
      var p := Processed(segs[..i]);
      assert Processed(segs[..i + 1]) == p + [seg];
      assert (p + [seg])[..|p|] == p;
      if EstimateSegment(c, ik, seg).Err? {
        SegmentFails(c, segs, ik, i);
      }
    }
  }

  /** A failing estimate after the rows so far decides the whole result. */
  lemma SegmentFails(c: Ctx, segs: seq<Segment>, ik: map<string, Value>, i: nat)
    requires i < |segs|
    requires EstimateSegment(c, ik, segs[i]).Err?
    requires Collect(Step(c, ik), Processed(segs[..i + 1])) == Err(EstimateSegment(c, ik, segs[i]).error)
    ensures SegmentRows(c, segs, ik) == Err(EstimateSegment(c, ik, segs[i]).error)
  {
    ProcessedPrefix(segs, i + 1);
    CollectErrorPersists(Step(c, ik), Processed(segs), |Processed(segs[..i + 1])|);
  }

  /** The body of the segment loop as written: the same steps with the md engine as
      written. */
  method SegmentBodyAsWritten(mol: Molecule, pm: ProjectionMethod, idMethod: string, pk: map<string, Value>,
                              env: Env, seg: Segment, kw: MdEngine.KwargsDict)
    returns (row: Result<SegmentRow>)
    modifies kw
    ensures row == EstimateSegment(ContextAsWritten(mol, pm, idMethod, pk, env), old(kw.entries), seg)
    ensures kw.entries == old(kw.entries) - MdEngine.ConsumedKeys
  {
    var windowMol := Filter(mol, SectionId.WindowSelection(seg.start, seg.end), env);
    var out := MdEngine.IntrinsicDimensionAsWritten("", "", Some(windowMol), pm, SectionId.EngineMethod(idMethod), pk, kw, env);
    if out.Err? {
      return Err(out.error);
    }
    row := Ok(RowOf(seg, GetResids(windowMol, "name CA", env), out.value));
  }

  /** The written loop over the segments, with the caller's dictionary object and the md
      engine as written. */
  method ScanSegmentsAsWritten(mol: Molecule, pm: ProjectionMethod, idMethod: string, pk: map<string, Value>,
                               env: Env, segs: seq<Segment>, kw: MdEngine.KwargsDict)
    returns (r: Result<seq<SegmentRow>>)
    modifies kw
    ensures var st := SegmentRowsAsWritten(ContextAsWritten(mol, pm, idMethod, pk, env), segs, old(kw.entries));
      r == st.rows && kw.entries == st.kwargs
  {
    ghost var c := ContextAsWritten(mol, pm, idMethod, pk, env);
    ghost var ik := kw.entries;
    var rows: seq<SegmentRow> := [];
    for i := 0 to |segs|
      invariant SegmentRowsAsWritten(c, segs[..i], ik) == ScanState(Ok(rows), kw.entries)
    {
      var seg := segs[i];
      AsWrittenStep(c, segs, ik, i, rows, kw.entries);
      if seg.end - seg.start < 1 {
        continue;
      }
      var row := SegmentBodyAsWritten(mol, pm, idMethod, pk, env, seg, kw);
      if row.Err? {
        return Err(row.error);
      }
      rows := rows + [row.value];
    }
    assert segs[..|segs|] == segs;
    r := Ok(rows);
  }

  /** The intended loop over the segments: each engine call gets its own copy of the
      caller's id kwargs. */
  method ScanSegments(mol: Molecule, pm: ProjectionMethod, idMethod: string, pk: map<string, Value>,
                      env: Env, segs: seq<Segment>, ik: map<string, Value>)
    returns (r: Result<seq<SegmentRow>>)
    ensures r == SegmentRows(Context(mol, pm, idMethod, pk, env), segs, ik)
  {
    ghost var c := Context(mol, pm, idMethod, pk, env);
    var rows: seq<SegmentRow> := [];
    for i := 0 to |segs|
      invariant Collect(Step(c, ik), Processed(segs[..i])) == Ok(rows)
    {
      var seg := segs[i];
      SegmentsStep(c, segs, ik, i, rows);
      if seg.end - seg.start < 1 {
        continue;
      }
      var kw := new MdEngine.KwargsDict(ik);
      var row := SegmentBody(mol, pm, idMethod, pk, env, seg, kw);
      if row.Err? {
        return Err(row.error);
      }
      rows := rows + [row.value];
    }
    assert segs[..|segs|] == segs;
    r := Ok(rows);
  }

  /** `secondary_structure_id(...)` as written: `id_kwargs or {}` keeps a non-empty
      caller's dictionary, which the segment loop then empties of `estimator` and `last`,
      and every segment goes through the md engine as written. */
  method SecondaryStructureIdAsWritten(topology: string, trajectory: string, mol: Option<Molecule>, ref: RefArg,
                                       simplified: bool, pm: ProjectionMethod, idMethod: string,
                                       pk: map<string, Value>, idKwargs: MdEngine.KwargsDict?, env: Env)
    returns (r: Result<(seq<SegmentRow>, seq<Row>)>)
    modifies idKwargs
    ensures var ik := if idKwargs == null then map[] else old(idKwargs.entries);
      r == SecondaryStructureAsWritten(topology, trajectory, mol, ref, simplified, pm, idMethod, pk, ik, env).0
      && (idKwargs != null ==>
            idKwargs.entries == SecondaryStructureAsWritten(topology, trajectory, mol, ref, simplified, pm, idMethod, pk, ik, env).1)
  {
    ghost var ik: map<string, Value> := if idKwargs == null then map[] else idKwargs.entries;
    var kw: MdEngine.KwargsDict;
    if idKwargs == null || idKwargs.entries == map[] {
      kw := new MdEngine.KwargsDict(map[]);
    } else {
      kw := idKwargs;
    }
    var prepared := Prepare(topology, trajectory, mol, ref, simplified, env);
    if prepared.Err? {
      return Err(prepared.error);
    }
    var (m, table) := prepared.value;
    var segs := RunLengths(table);
    if segs.Err? {
      return Err(segs.error);
    }
    if kw != idKwargs {
      AsWrittenAgreesWithoutSettings(ContextAsWritten(m, pm, idMethod, pk, env), segs.value, map[]);
    }
    var rows := ScanSegmentsAsWritten(m, pm, idMethod, pk, env, segs.value, kw);
    if rows.Err? {
      return Err(rows.error);
    }
    r := Ok((rows.value, table));
  }

  /** `secondary_structure_id(...)` with each segment estimated with the caller's id
      kwargs, which are left as they were. */
  method SecondaryStructureId(topology: string, trajectory: string, mol: Option<Molecule>, ref: RefArg,
                              simplified: bool, pm: ProjectionMethod, idMethod: string,
                              pk: map<string, Value>, ik: map<string, Value>, env: Env)
    returns (r: Result<(seq<SegmentRow>, seq<Row>)>)
    ensures r == SecondaryStructureSpec(topology, trajectory, mol, ref, simplified, pm, idMethod, pk, ik, env)
  {
    var prepared := Prepare(topology, trajectory, mol, ref, simplified, env);
    if prepared.Err? {
      return Err(prepared.error);
    }
    var (m, table) := prepared.value;
    var rows := ScanTable(m, pm, idMethod, pk, env, table, ik);
    if rows.Err? {
      return Err(rows.error);
    }
    r := Ok((rows.value, table));
  }

  /** The residue table cut into runs, and the runs estimated one by one. */
  method ScanTable(m: Molecule, pm: ProjectionMethod, idMethod: string, pk: map<string, Value>,
                   env: Env, table: seq<Row>, ik: map<string, Value>)
    returns (r: Result<seq<SegmentRow>>)
    ensures r == TableRows(m, pm, idMethod, pk, env, table, ik)
  {
    var segs := RunLengths(table);
    if segs.Err? {
      return Err(segs.error);
    }
    r := ScanSegments(m, pm, idMethod, pk, env, segs.value, ik);
  }
}
