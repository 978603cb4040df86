/** Sliding residue windows over a protein (intrinsic_dimension/section_id.py): the
    distinct residue ids are cut into windows of `windowSize` consecutive ids every `stride`
    ids, and the older engine estimates the intrinsic dimension of each window's atoms. */
module SectionId {
  import opened Common
  import opened PySeq
  import opened Text
  import opened ComputeId
  import opened ProjectionDispatch
  import LegacyEngine

  /** One row of the result table. */
  datatype WindowRecord = WindowRecord(start: int, end: int, entire: Float, lastSim: Float,
                                       instantaneous: seq<real>)

  /** What stays the same from one window to the next: the distinct residue ids, the
      window size, and the estimate of the window between two residue ids. */
  datatype Scan = Scan(resids: seq<int>, windowSize: int, estimate: (int, int) -> Result<IdOutput>)

  /** `f"resid {start} to {end}"` */
  function WindowSelection(start: int, end: int): string
  {
    "resid " + IntToString(start) + " to " + IntToString(end)
  }

  /** The selection string names its two bounds, and they can be read back from it. */
  lemma WindowSelectionParses(start: int, end: int)
    ensures Split(WindowSelection(start, end)) == ["resid", IntToString(start), "to", IntToString(end)]
    ensures ParseInt(Split(WindowSelection(start, end))[1]) == start
    ensures ParseInt(Split(WindowSelection(start, end))[3]) == end
  {
    var parts := ["resid", IntToString(start), "to", IntToString(end)];
    IntToStringHasNoSpace(start);
    IntToStringHasNoSpace(end);
    assert Join(parts[3..], " ") == IntToString(end);
    assert Join(parts[2..], " ") == "to " + IntToString(end);
    assert Join(parts[1..], " ") == IntToString(start) + " to " + IntToString(end);
    assert Join(parts, " ") == WindowSelection(start, end);
    SplitJoin(parts);
    IntToStringRoundTrip(start);
    IntToStringRoundTrip(end);
  }

  /** The engine is always asked for 'local' or 'global'. */
  function EngineMethod(idMethod: string): (m: string)
    ensures m == "local" <==> idMethod == "local"
    ensures m != "local" ==> m == "global"
  {
    if idMethod == "local" then "local" else "global"
  }

  /** The molecule of one window: a copy of the input filtered on the residue range. */
  function WindowMolecule(mol: Molecule, start: int, end: int, env: Env): Molecule
  {
    Filter(mol, WindowSelection(start, end), env)
  }

  /** `intrinsic_dimension(mol=window_mol, ...)` as each window calls it: the same
      projection method and keyword arguments every time, local or global. */
  function EngineCall(mol: Molecule, pm: ProjectionMethod, idMethod: string, pk: map<string, Value>,
                      ik: map<string, Value>, env: Env): (int, int) -> Result<IdOutput>
  {
    (start, end) => LegacyEngine.Estimate("", "", Some(WindowMolecule(mol, start, end, env)), pm,
                                          EngineMethod(idMethod), pk, ik, env)
  }

  /** A row from what the engine returned; a global estimate has no per-frame series. */
  function RecordOf(start: int, end: int, out: IdOutput): WindowRecord
  {
    match out
    case LocalOut(all, last, series) => WindowRecord(start, end, all, last, series)
    case GlobalOut(gid, gidLast) => WindowRecord(start, end, gid, gidLast, [])
  }

  /** One iteration of the loop over windows, from window position `i`. */
  function ScanWindow(c: Scan, i: int): Result<WindowRecord>
  {
    match At(c.resids, i)
    case Err(e) => Err(e)
    case Ok(start) =>
      match At(c.resids, i + c.windowSize - 1)
      case Err(e) => Err(e)
      case Ok(end) =>
        match c.estimate(start, end)
        case Err(e) => Err(e)
        case Ok(out) => Ok(RecordOf(start, end, out))
  }

  /** The loop body as a function of the window position. */
  function Step(c: Scan): int -> Result<WindowRecord>
  {
    i => ScanWindow(c, i)
  }

  /** The window positions `range(0, total - windowSize + 1, stride)`. */
  function Windows(total: int, windowSize: int, stride: int): (ws: seq<int>)
    requires stride != 0
    ensures stride > 0 ==> forall k :: 0 <= k < |ws| ==> 0 <= ws[k] && ws[k] + windowSize <= total
  {
    Range(total - windowSize + 1, stride)
  }

  /** `section_id(...)`: window size first, then the input, then the residue ids, then the
      stride (which `range` rejects when it is zero), then one row per window. */
  function SectionIdSpec(topology: string, trajectory: string, mol: Option<Molecule>,
                         windowSize: int, stride: int, pm: ProjectionMethod, idMethod: string,
                         pk: map<string, Value>, ik: map<string, Value>, env: Env): Result<seq<WindowRecord>>
  {
    if windowSize <= 1 then Err(InvalidWindow)
    else
      match LoadInput(topology, trajectory, mol, env, "Topology", "Trajectory")
      case Err(e) => Err(e)
      case Ok(m) =>
        var resids := Unique(ResidsOf(m.atoms));
        if stride == 0 then Err(ZeroStride)
        else Collect(Step(Scan(resids, windowSize, EngineCall(m, pm, idMethod, pk, ik, env))),
                     Windows(|resids|, windowSize, stride))
  }

  /** `section_id(...)` */
  method SectionIdMethod(topology: string, trajectory: string, mol: Option<Molecule>,
                         windowSize: int, stride: int, pm: ProjectionMethod, idMethod: string,
                         pk: map<string, Value>, ik: map<string, Value>, env: Env)
    returns (r: Result<seq<WindowRecord>>)
    ensures r == SectionIdSpec(topology, trajectory, mol, windowSize, stride, pm, idMethod, pk, ik, env)
  {
    if windowSize <= 1 {
      return Err(InvalidWindow);
    }
    var loaded := LoadInput(topology, trajectory, mol, env, "Topology", "Trajectory");
    if loaded.Err? {
      return Err(loaded.error);
    }
    var resids := Unique(ResidsOf(loaded.value.atoms));
    if stride == 0 {
      return Err(ZeroStride);
    }
    var windows := Windows(|resids|, windowSize, stride);
    r := CollectLoop(Step(Scan(resids, windowSize, EngineCall(loaded.value, pm, idMethod, pk, ik, env))), windows);
  }

  /** Python's `a // b`, which rounds toward negative infinity. */
  function PyDiv(a: int, b: int): int
    requires b != 0
  {
    if b < 0 && a % b != 0 then a / b - 1 else a / b
  }

  /** Python's `a % b`: the remainder takes the sign of the divisor and completes `a // b`. */
  function PyMod(a: int, b: int): (r: int)
    requires b != 0
    ensures b > 0 ==> 0 <= r < b
    ensures b < 0 ==> b < r <= 0
    ensures a == PyDiv(a, b) * b + r
  {
    var e := a % b;
    assert a == (a / b) * b + e;
    assert (a / b - 1) * b == (a / b) * b - b;
    if b < 0 && e != 0 then e + b else e
  }

  /** `extra_aa`: the residues the windows leave out at the end, which is only logged. */
  function Leftover(total: int, windowSize: int, stride: int): int
    requires stride != 0
  {
    PyMod(total - windowSize, stride)
  }

  /** With a positive stride there are `(total - w) // stride + 1` windows when the protein
      holds at least one window, none otherwise; window `k` starts at position `k * stride`
      and every window lies inside the residue list. */
  lemma WindowCount(total: nat, windowSize: int, stride: int)
    requires stride > 0
    ensures |Windows(total, windowSize, stride)| == if total < windowSize then 0 else (total - windowSize) / stride + 1
    ensures forall k :: 0 <= k < |Windows(total, windowSize, stride)| ==>
      Windows(total, windowSize, stride)[k] == k * stride
      && 0 <= Windows(total, windowSize, stride)[k] && Windows(total, windowSize, stride)[k] + windowSize <= total
  {
    var ws := Windows(total, windowSize, stride);
    forall k | 0 <= k < |ws| ensures 0 <= ws[k] {
      MulLeMono(0, k, stride);
    }
  }

  /** The logged leftover is exactly the number of residues after the end of the last
      window. */
  lemma LeftoverAfterLastWindow(total: nat, windowSize: int, stride: int)
    requires windowSize > 1 && stride > 0 && total >= windowSize
    ensures var n := |Windows(total, windowSize, stride)|;
      n > 0 && Leftover(total, windowSize, stride) == total - ((n - 1) * stride + windowSize)
  {
    WindowCount(total, windowSize, stride);
    var a := total - windowSize;
    assert a == (a / stride) * stride + a % stride;
  }

  /** A window that lies inside the residue list spans its first and last residue id and
      holds the engine's estimate for the atoms of that residue range. */
  lemma ScanInside(c: Scan, i: int)
    requires 0 <= i && i + c.windowSize <= |c.resids| && c.windowSize >= 1
    ensures ScanWindow(c, i).Ok? <==>
      c.estimate(c.resids[i], c.resids[i + c.windowSize - 1]).Ok?
    ensures ScanWindow(c, i).Ok? ==>
      ScanWindow(c, i).value.start == c.resids[i] && ScanWindow(c, i).value.end == c.resids[i + c.windowSize - 1]
      && ScanWindow(c, i).value
         == RecordOf(c.resids[i], c.resids[i + c.windowSize - 1],
                     c.estimate(c.resids[i], c.resids[i + c.windowSize - 1]).value)
  {
  }

  /** With a positive stride the scan fails only where the engine fails: it succeeds
      exactly when the estimate of every window does. */
  lemma PositiveStrideOk(c: Scan, stride: int)
    requires c.windowSize > 1 && stride > 0
    ensures var ws := Windows(|c.resids|, c.windowSize, stride);
      Collect(Step(c), ws).Ok? <==> forall k :: 0 <= k < |ws| ==>
        c.estimate(c.resids[ws[k]], c.resids[ws[k] + c.windowSize - 1]).Ok?
  {
    var ws := Windows(|c.resids|, c.windowSize, stride);
    forall k | 0 <= k < |ws|
      ensures ScanWindow(c, ws[k]).Ok? <==> c.estimate(c.resids[ws[k]], c.resids[ws[k] + c.windowSize - 1]).Ok?
    {
      ScanInside(c, ws[k]);
    }
    CollectOkIff(Step(c), ws);
  }

  /** Row `k` of a successful scan with a positive stride spans residue ids
      `resids[k * stride]` to `resids[k * stride + w - 1]` and holds that window's
      estimate; with ascending ids the start lies below the end. */
  lemma PositiveStrideRows(c: Scan, stride: int)
    requires c.windowSize > 1 && stride > 0
    requires StrictlyIncreasing(c.resids)
    requires Collect(Step(c), Windows(|c.resids|, c.windowSize, stride)).Ok?
    ensures var ws := Windows(|c.resids|, c.windowSize, stride);
      var rows := Collect(Step(c), ws).value;
      |rows| == |ws|
      && forall k :: 0 <= k < |ws| ==>
           ws[k] == k * stride
           && rows[k].start == c.resids[ws[k]] && rows[k].end == c.resids[ws[k] + c.windowSize - 1]
           && rows[k].start < rows[k].end
           && c.estimate(rows[k].start, rows[k].end).Ok?
           && rows[k] == RecordOf(rows[k].start, rows[k].end, c.estimate(rows[k].start, rows[k].end).value)
  {
    var ws := Windows(|c.resids|, c.windowSize, stride);
    WindowCount(|c.resids|, c.windowSize, stride);
    RowsOfWindows(c, stride);
    var rows := Collect(Step(c), ws).value;
    forall k | 0 <= k < |ws| ensures rows[k].start < rows[k].end {
      assert ws[k] < ws[k] + c.windowSize - 1;
    }
  }

  /** A successful scan holds one row per window, spanning the window's first and last
      residue id and holding that window's estimate. */
  lemma RowsOfWindows(c: Scan, stride: int)
    requires c.windowSize > 1 && stride > 0
    requires Collect(Step(c), Windows(|c.resids|, c.windowSize, stride)).Ok?
    ensures var ws := Windows(|c.resids|, c.windowSize, stride);
      var rows := Collect(Step(c), ws).value;
      |rows| == |ws|
      && forall k :: 0 <= k < |ws| ==>
           rows[k].start == c.resids[ws[k]] && rows[k].end == c.resids[ws[k] + c.windowSize - 1]
           && c.estimate(rows[k].start, rows[k].end).Ok?
           && rows[k] == RecordOf(rows[k].start, rows[k].end, c.estimate(rows[k].start, rows[k].end).value)
  {
    var ws := Windows(|c.resids|, c.windowSize, stride);
    CollectOk(Step(c), ws);
    var rows := Collect(Step(c), ws).value;
    forall k | 0 <= k < |ws|
      ensures rows[k].start == c.resids[ws[k]] && rows[k].end == c.resids[ws[k] + c.windowSize - 1]
      ensures c.estimate(rows[k].start, rows[k].end).Ok?
      ensures rows[k] == RecordOf(rows[k].start, rows[k].end, c.estimate(rows[k].start, rows[k].end).value)
    {
      ScanInside(c, ws[k]);
    }
  }

  /** ... and the rows come in ascending order of their first residue id. */
  lemma PositiveStrideAscending(c: Scan, stride: int)
    requires c.windowSize > 1 && stride > 0
    requires StrictlyIncreasing(c.resids)
    requires Collect(Step(c), Windows(|c.resids|, c.windowSize, stride)).Ok?
    ensures var rows := Collect(Step(c), Windows(|c.resids|, c.windowSize, stride)).value;
      forall k :: 0 < k < |rows| ==> rows[k - 1].start < rows[k].start
  {
    var ws := Windows(|c.resids|, c.windowSize, stride);
    PositiveStrideRows(c, stride);
    var rows := Collect(Step(c), ws).value;
    forall k | 0 < k < |rows| ensures rows[k - 1].start < rows[k].start {
      assert ws[k] == ws[k - 1] + stride;
    }
  }

  /** With a negative stride `range` is empty unless the protein has fewer than
      `windowSize - 1` residues, and then the very first window indexes past the end. */
  lemma NegativeStride(c: Scan, stride: int)
    requires c.windowSize > 1 && stride < 0
    ensures Collect(Step(c), Windows(|c.resids|, c.windowSize, stride))
         == if |c.resids| - c.windowSize + 1 < 0 then Err(IndexOutOfRange) else Ok([])
  {
    var ws := Windows(|c.resids|, c.windowSize, stride);
    if ws != [] {
      assert ws[0] == 0;
      assert ws[..1][..0] == [];
      assert Collect(Step(c), ws[..1]) == Err(IndexOutOfRange);
      CollectErrorPersists(Step(c), ws, 1);
    }
  }

  /** The window size is checked before anything else, even before the input files; a
      failed input comes next, and a zero stride is rejected once the input is loaded. */
  lemma CheckOrder(topology: string, trajectory: string, mol: Option<Molecule>,
                   windowSize: int, stride: int, pm: ProjectionMethod, idMethod: string,
                   pk: map<string, Value>, ik: map<string, Value>, env: Env)
    ensures windowSize <= 1 ==>
      SectionIdSpec(topology, trajectory, mol, windowSize, stride, pm, idMethod, pk, ik, env) == Err(InvalidWindow)
    ensures windowSize > 1 && LoadInput(topology, trajectory, mol, env, "Topology", "Trajectory").Err? ==>
      SectionIdSpec(topology, trajectory, mol, windowSize, stride, pm, idMethod, pk, ik, env)
        == Err(LoadInput(topology, trajectory, mol, env, "Topology", "Trajectory").error)
    ensures windowSize > 1 && stride == 0 && LoadInput(topology, trajectory, mol, env, "Topology", "Trajectory").Ok? ==>
      SectionIdSpec(topology, trajectory, mol, windowSize, stride, pm, idMethod, pk, ik, env) == Err(ZeroStride)
  {
  }

  /** A local scan gives each row the per-frame series of its window; any other id method
      is estimated globally, and its rows carry an empty series. */
  lemma RowShape(mol: Molecule, pm: ProjectionMethod, idMethod: string, pk: map<string, Value>,
                 ik: map<string, Value>, env: Env, start: int, end: int)
    requires EngineCall(mol, pm, idMethod, pk, ik, env)(start, end).Ok?
    ensures var out := EngineCall(mol, pm, idMethod, pk, ik, env)(start, end).value;
      (idMethod == "local" ==> out.LocalOut? && RecordOf(start, end, out).instantaneous == out.series)
      && (idMethod != "local" ==> out.GlobalOut? && RecordOf(start, end, out).instantaneous == [])
  {
  }
}
