/** The first residue-window scan (intrinsic_dimension/section_intrinsic_dimension.py):
    the protein's distinct residue ids are cut into windows of `windowSize` ids every
    `stride` ids; each window is selected by listing its ids, numbered from 001, and
    estimated by the older engine. */
module SectionWindows {
  import opened Common
  import opened PySeq
  import opened Text
  import opened ComputeId
  import opened ProjectionDispatch
  import LegacyEngine
  import SectionId

  /** One row of the result table: the window number, the smallest and largest residue id
      of the window, and the estimates. */
  datatype WindowRow = WindowRow(index: string, resids: (int, int), entire: Float, lastSim: Float,
                                 instantaneous: seq<real>)

  /** What stays the same from one window to the next: the distinct residue ids, the window
      size, the estimate of the window holding a given list of residue ids, and the label
      of the window at a given position. */
  datatype Scan = Scan(resids: seq<int>, windowSize: int, estimate: seq<int> -> Result<IdOutput>,
                       name: int -> string)

  /** `f'{i+1:03d}'`, the label of the window at position `i`. */
  function WindowLabel(): int -> string
  {
    i => ZeroPad3(i + 1)
  }

  /** `map(str, window)` */
  function Words(window: seq<int>): (r: seq<string>)
    ensures |r| == |window|
    ensures forall k :: 0 <= k < |window| ==> r[k] == IntToString(window[k])
  {
    seq(|window|, k requires 0 <= k < |window| => IntToString(window[k]))
  }

  /** `f"protein and resid {' '.join(map(str, window))}"` */
  function WindowSelection(window: seq<int>): string
  {
    "protein and resid " + Join(Words(window), " ")
  }

  /** The selection lists exactly the window's residue ids, in order ... */
  lemma WindowSelectionSplits(window: seq<int>)
    requires window != []
    ensures Split(WindowSelection(window)) == ["protein", "and", "resid"] + Words(window)
  {
    var w := Words(window);
    var parts := ["protein", "and", "resid"] + w;
    assert forall k :: 0 <= k < |parts| ==> ' ' !in parts[k] by {
      forall k | 0 <= k < |parts| ensures ' ' !in parts[k] {
        if k >= 3 {
          IntToStringHasNoSpace(window[k - 3]);
        }
      }
    }
    SelectionText(w);
    SplitJoin(parts);
  }

  /** The selection is the space-joined word list `protein`, `and`, `resid`, ids. */
  lemma SelectionText(w: seq<string>)
    requires w != []
    ensures Join(["protein", "and", "resid"] + w, " ") == "protein and resid " + Join(w, " ")
  {
    var x := Join(w, " ");
    JoinCons("resid", w, " ");
    JoinCons("and", ["resid"] + w, " ");
    JoinCons("protein", ["and"] + (["resid"] + w), " ");
    assert ["protein", "and", "resid"] + w == ["protein"] + (["and"] + (["resid"] + w));
    assert "protein" + " " + ("and" + " " + ("resid" + " " + x)) == "protein and resid " + x;
  }

  /** ... and each id can be read back from it. */
  lemma WindowSelectionParses(window: seq<int>)
    requires window != []
    ensures |Split(WindowSelection(window))| == 3 + |window|
            && forall k :: 0 <= k < |window| ==> ParseInt(Split(WindowSelection(window))[3 + k]) == window[k]
  {
    var parts, w := Split(WindowSelection(window)), Words(window);
    assert parts == ["protein", "and", "resid"] + w by {
      WindowSelectionSplits(window);
    }
    forall k | 0 <= k < |window| ensures ParseInt(parts[3 + k]) == window[k] {
      assert parts[3 + k] == w[k] == IntToString(window[k]);
      IntToStringRoundTrip(window[k]);
    }
  }

  /** `intrinsic_dimension(mol=window_mol, ...)` as each window calls it. The keyword
      arguments are passed as given; the engine reads a missing dictionary as empty. */
  function EngineCall(mol: Molecule, pm: ProjectionMethod, idMethod: string, pk: map<string, Value>,
                      ik: map<string, Value>, env: Env): seq<int> -> Result<IdOutput>
  {
    window => LegacyEngine.Estimate("", "", Some(Filter(mol, WindowSelection(window), env)), pm,
                                    SectionId.EngineMethod(idMethod), pk, ik, env)
  }

  /** Python's `min` of a non-empty sequence. */
  function SeqMin(s: seq<int>): (m: int)
    requires s != []
  {
    if |s| == 1 then s[0]
    else var rest := SeqMin(s[1..]); if s[0] <= rest then s[0] else rest
  }

  /** Python's `max` of a non-empty sequence. */
  function SeqMax(s: seq<int>): (m: int)
    requires s != []
  {
    if |s| == 1 then s[0]
    else var rest := SeqMax(s[1..]); if s[0] >= rest then s[0] else rest
  }

  /** `min` is an element no larger than any other, `max` an element no smaller. */
  lemma {:induction false} MinMaxExtremes(s: seq<int>)
    requires s != []
    ensures SeqMin(s) in s && forall k :: 0 <= k < |s| ==> SeqMin(s) <= s[k]
    ensures SeqMax(s) in s && forall k :: 0 <= k < |s| ==> s[k] <= SeqMax(s)
  {
    if |s| > 1 {
      MinMaxExtremes(s[1..]);
      forall k | 1 <= k < |s| ensures s[k] == s[1..][k - 1] { }
    }
  }

  /** For ascending ids the range of a window is its first and last id. */
  lemma {:induction false} AscendingBounds(s: seq<int>)
    requires s != [] && StrictlyIncreasing(s)
    ensures SeqMin(s) == s[0] && SeqMax(s) == s[|s| - 1]
  {
    if |s| > 1 {
      SliceIncreasing(s, 1, |s|);
      AscendingBounds(s[1..]);
    }
  }

  /** The row of a window once the engine has returned: `min`/`max` of an empty window
      fail. */
  function RowOf(index: string, window: seq<int>, out: IdOutput): (r: Result<WindowRow>)
    ensures r.Ok? <==> window != []
    ensures r.Ok? ==> r.value.index == index && r.value.resids == (SeqMin(window), SeqMax(window))
  {
    if window == [] then Err(EmptyWindow)
    else
      var bounds := (SeqMin(window), SeqMax(window));
      match out
      case LocalOut(all, last, series) => Ok(WindowRow(index, bounds, all, last, series))
      case GlobalOut(gid, gidLast) => Ok(WindowRow(index, bounds, gid, gidLast, []))
  }

  /** One iteration of the loop, from position `i`: the window is `resids[i:i + w]`, it is
      labelled by its position, and the engine runs before the window's range is taken. */
  function ScanWindow(c: Scan, i: int): Result<WindowRow>
  {
    match c.estimate(WindowAt(c, i))
    case Err(e) => Err(e)
    case Ok(out) => RowOf(c.name(i), WindowAt(c, i), out)
  }

  /** `resids[i:i + w]`: for a window inside the residue list, the `w` consecutive ids from
      position `i`. */
  function WindowAt(c: Scan, i: int): (w: seq<int>)
    ensures 0 <= i && i + c.windowSize <= |c.resids| && c.windowSize >= 0 ==> w == c.resids[i..i + c.windowSize]
  {
    Slice(c.resids, i, i + c.windowSize)
  }

  function Step(c: Scan): int -> Result<WindowRow>
  {
    i => ScanWindow(c, i)
  }

  /** `(total - w) // stride`, which is only logged; it raises ZeroDivisionError for a zero
      stride before the loop is reached. */
  function LoggedWindowCount(total: int, windowSize: int, stride: int): int
    requires stride != 0
  {
    SectionId.PyDiv(total - windowSize, stride)
  }

  /** `section_intrinsic_dimension(...)`: the input (with its own file roles), the protein's
      residue ids, the stride through the logged window count, then one row per window. */
  function SectionSpec(topology: string, trajectory: string, mol: Option<Molecule>,
                       windowSize: int, stride: int, pm: ProjectionMethod, idMethod: string,
                       pk: map<string, Value>, ik: map<string, Value>, env: Env): Result<seq<WindowRow>>
  {
    match LoadInput(topology, trajectory, mol, env, "PDB", "DCD")
    case Err(e) => Err(e)
    case Ok(m) =>
      var resids := Unique(GetResids(m, "protein", env));
      if stride == 0 then Err(ZeroDivision)
      else Collect(Step(Scan(resids, windowSize, EngineCall(m, pm, idMethod, pk, ik, env), WindowLabel())),
                   SectionId.Windows(|resids|, windowSize, stride))
  }

  method SectionIntrinsicDimension(topology: string, trajectory: string, mol: Option<Molecule>,
                                   windowSize: int, stride: int, pm: ProjectionMethod, idMethod: string,
                                   pk: map<string, Value>, ik: map<string, Value>, env: Env)
    returns (r: Result<seq<WindowRow>>)
    ensures r == SectionSpec(topology, trajectory, mol, windowSize, stride, pm, idMethod, pk, ik, env)
  {
    var loaded := LoadInput(topology, trajectory, mol, env, "PDB", "DCD");
    if loaded.Err? {
      return Err(loaded.error);
    }
    var resids := Unique(GetResids(loaded.value, "protein", env));
    if stride == 0 {
      return Err(ZeroDivision);
    }
    var windows := SectionId.Windows(|resids|, windowSize, stride);
    r := CollectLoop(Step(Scan(resids, windowSize, EngineCall(loaded.value, pm, idMethod, pk, ik, env), WindowLabel())),
                     windows);
  }

  /** The input is resolved first, with the PDB file checked before the DCD file; a zero
      stride is rejected once the input is there. There is no check of the window size. */
  lemma CheckOrder(topology: string, trajectory: string, mol: Option<Molecule>,
                   windowSize: int, stride: int, pm: ProjectionMethod, idMethod: string,
                   pk: map<string, Value>, ik: map<string, Value>, env: Env)
    ensures mol.None? && !env.isFile(topology) ==>
      SectionSpec(topology, trajectory, mol, windowSize, stride, pm, idMethod, pk, ik, env) == Err(FileNotFound("PDB", topology))
    ensures mol.None? && env.isFile(topology) && !env.isFile(trajectory) ==>
      SectionSpec(topology, trajectory, mol, windowSize, stride, pm, idMethod, pk, ik, env) == Err(FileNotFound("DCD", trajectory))
    ensures stride == 0 && LoadInput(topology, trajectory, mol, env, "PDB", "DCD").Ok? ==>
      SectionSpec(topology, trajectory, mol, windowSize, stride, pm, idMethod, pk, ik, env) == Err(ZeroDivision)
  {
  }

  /** A window inside the residue list with at least one id is the slice of consecutive
      ids starting at position `i`; its row carries the label of `i` and the smallest and
      largest id of that slice. */
  lemma ScanInside(c: Scan, i: int)
    requires 0 <= i && i + c.windowSize <= |c.resids| && c.windowSize >= 1
    ensures WindowAt(c, i) != []
    ensures ScanWindow(c, i).Ok? <==> c.estimate(WindowAt(c, i)).Ok?
    ensures ScanWindow(c, i).Ok? ==>
      ScanWindow(c, i).value.index == c.name(i)
      && ScanWindow(c, i).value.resids == (SeqMin(WindowAt(c, i)), SeqMax(WindowAt(c, i)))
  {
  }

  /** In ascending ids a slice ranges from its first to its last id. */
  lemma SliceBounds(s: seq<int>, i: int, j: int, t: seq<int>)
    requires 0 <= i < j <= |s| && StrictlyIncreasing(s) && t == s[i..j]
    ensures SeqMin(t) == s[i] && SeqMax(t) == s[j - 1]
  {
    assert |t| == j - i;
    assert t[0] == s[i];
    assert t[j - i - 1] == s[j - 1];
    SliceIncreasing(s, i, j);
    AscendingBounds(t);
  }

  /** A slice of ascending ids is ascending. */
  lemma SliceIncreasing(s: seq<int>, i: int, j: int)
    requires 0 <= i <= j <= |s| && StrictlyIncreasing(s)
    ensures StrictlyIncreasing(s[i..j])
  {
    var t := s[i..j];
    forall a, b | 0 <= a < b < |t| ensures t[a] < t[b] {
      assert t[a] == s[i + a] && t[b] == s[i + b];
    }
  }

  /** With a positive stride and a window of at least one residue, the scan succeeds exactly
      when every window's estimate does. */
  lemma PositiveStrideOk(c: Scan, stride: int)
    requires c.windowSize >= 1 && stride > 0
    ensures var ws := SectionId.Windows(|c.resids|, c.windowSize, stride);
      Collect(Step(c), ws).Ok? <==> forall k :: 0 <= k < |ws| ==> c.estimate(WindowAt(c, ws[k])).Ok?
  {
    var ws := SectionId.Windows(|c.resids|, c.windowSize, stride);
    forall k | 0 <= k < |ws|
      ensures ScanWindow(c, ws[k]).Ok? <==> c.estimate(WindowAt(c, ws[k])).Ok?
    {
      ScanInside(c, ws[k]);
    }
    CollectOkIff(Step(c), ws);
  }

  /** Row `k` of a successful scan is then labelled by position `k * stride` and, for
      ascending ids, spans `resids[k * stride]` to `resids[k * stride + w - 1]`. */
  lemma PositiveStrideRows(c: Scan, stride: int)
    requires c.windowSize >= 1 && stride > 0
    requires StrictlyIncreasing(c.resids)
    requires Collect(Step(c), SectionId.Windows(|c.resids|, c.windowSize, stride)).Ok?
    ensures var ws := SectionId.Windows(|c.resids|, c.windowSize, stride);
      var rows := Collect(Step(c), ws).value;
      |rows| == |ws|
      && forall k :: 0 <= k < |ws| ==>
           ws[k] == k * stride
           && rows[k].index == c.name(ws[k])
           && rows[k].resids == (c.resids[ws[k]], c.resids[ws[k] + c.windowSize - 1])
  {
    SectionId.WindowCount(|c.resids|, c.windowSize, stride);
    WindowBounds(c, stride);
    RowsOfWindows(c, stride);
  }

  /** Over ascending ids, every window of a positive-stride scan ranges from its first to
      its last id. */
  lemma WindowBounds(c: Scan, stride: int)
    requires c.windowSize >= 1 && stride > 0
    requires StrictlyIncreasing(c.resids)
    ensures var ws := SectionId.Windows(|c.resids|, c.windowSize, stride);
      forall k :: 0 <= k < |ws| ==>
        SeqMin(c.resids[ws[k]..ws[k] + c.windowSize]) == c.resids[ws[k]]
        && SeqMax(c.resids[ws[k]..ws[k] + c.windowSize]) == c.resids[ws[k] + c.windowSize - 1]
  {
    var ws := SectionId.Windows(|c.resids|, c.windowSize, stride);
    forall k | 0 <= k < |ws|
      ensures SeqMin(c.resids[ws[k]..ws[k] + c.windowSize]) == c.resids[ws[k]]
      ensures SeqMax(c.resids[ws[k]..ws[k] + c.windowSize]) == c.resids[ws[k] + c.windowSize - 1]
    {
      SliceBounds(c.resids, ws[k], ws[k] + c.windowSize, c.resids[ws[k]..ws[k] + c.windowSize]);
    }
  }

  /** A successful positive-stride scan holds one row per window, labelled by the
      window's position and carrying the window's smallest and largest id. */
  lemma RowsOfWindows(c: Scan, stride: int)
    requires c.windowSize >= 1 && stride > 0
    requires Collect(Step(c), SectionId.Windows(|c.resids|, c.windowSize, stride)).Ok?
    ensures var ws := SectionId.Windows(|c.resids|, c.windowSize, stride);
      var rows := Collect(Step(c), ws).value;
      |rows| == |ws|
      && forall k :: 0 <= k < |ws| ==>
           WindowAt(c, ws[k]) == c.resids[ws[k]..ws[k] + c.windowSize]
           && rows[k].index == c.name(ws[k])
           && rows[k].resids == (SeqMin(WindowAt(c, ws[k])), SeqMax(WindowAt(c, ws[k])))
  {
    var ws := SectionId.Windows(|c.resids|, c.windowSize, stride);
    CollectOk(Step(c), ws);
    var rows := Collect(Step(c), ws).value;
    forall k | 0 <= k < |ws|
      ensures WindowAt(c, ws[k]) == c.resids[ws[k]..ws[k] + c.windowSize]
      ensures rows[k].index == c.name(ws[k])
      ensures rows[k].resids == (SeqMin(WindowAt(c, ws[k])), SeqMax(WindowAt(c, ws[k])))
    {
      ScanInside(c, ws[k]);
    }
  }

  /** The label of a window is at least three characters and denotes the window's
      1-based position; below 1000 it is exactly three digits. */
  lemma WindowLabelDigits(i: nat)
    ensures |WindowLabel()(i)| >= 3 && DigitsValue(WindowLabel()(i)) == i + 1
    ensures i + 1 < 1000 ==> |WindowLabel()(i)| == 3
  {
    ZeroPad3Value(i + 1);
  }

  /** A window size of zero, or a stride that starts slicing past the end, leaves
      a window empty: that window fails with the engine's error or, if the engine succeeds,
      with `min()` of an empty sequence. */
  lemma EmptyWindowFails(c: Scan, i: int)
    requires Slice(c.resids, i, i + c.windowSize) == []
    ensures ScanWindow(c, i).Err?
    ensures c.estimate([]).Ok? ==> ScanWindow(c, i) == Err(EmptyWindow)
  {
  }

  /** The logged window count is one less than the number of windows scanned. */
  lemma LoggedCountIsOneShort(total: nat, windowSize: int, stride: int)
    requires windowSize > 1 && stride > 0 && total >= windowSize
    ensures |SectionId.Windows(total, windowSize, stride)| == LoggedWindowCount(total, windowSize, stride) + 1
  {
    SectionId.WindowCount(total, windowSize, stride);
  }
}
