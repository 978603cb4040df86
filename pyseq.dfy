/** Python and numpy sequence semantics the package relies on: slicing with negative and
    out-of-range bounds, indexing, `range(0, stop, step)` and `np.unique`. */
module PySeq {
  import opened Common

  function Min(a: int, b: int): int { if a <= b then a else b }

  /** How Python clamps one slice bound against a sequence of length `n`. */
  function SliceBound(a: int, n: nat): (r: nat)
    ensures r <= n
  {
    if a < 0 then (if a + n < 0 then 0 else a + n)
    else if a > n then n
    else a
  }

  /** `s[a:b]` */
  function Slice<T>(s: seq<T>, a: int, b: int): (r: seq<T>)
    ensures |r| <= |s|
    ensures 0 <= a <= b <= |s| ==> r == s[a..b]
  {
    var lo, hi := SliceBound(a, |s|), SliceBound(b, |s|);
    if lo < hi then s[lo..hi] else []
  }

  /** `s[-last:]`, the trailing slice used for "the last `last` frames". */
  function Tail<T>(s: seq<T>, last: int): (r: seq<T>)
    ensures 0 < last ==> |r| == Min(last, |s|) && r == s[|s| - |r|..]
    ensures last == 0 || last >= |s| ==> r == s
    ensures last < 0 ==> r == s[Min(-last, |s|)..]
  {
    Slice(s, -last, |s|)
  }

  /** `s[i]`, which raises IndexError outside `-len(s) <= i < len(s)`. */
  function At<T>(s: seq<T>, i: int): (r: Result<T>)
    ensures r.Ok? <==> -|s| <= i < |s|
    ensures 0 <= i < |s| ==> r == Ok(s[i])
    ensures -|s| <= i < 0 ==> r == Ok(s[|s| + i])
    ensures r.Err? ==> r.error == IndexOutOfRange
  {
    if 0 <= i < |s| then Ok(s[i])
    else if -|s| <= i < 0 then Ok(s[|s| + i])
    else Err(IndexOutOfRange)
  }

  /** `len(range(0, stop, step))` */
  function RangeLen(stop: int, step: int): nat
    requires step != 0
  {
    if step > 0 then (if stop <= 0 then 0 else (stop - 1) / step + 1)
    else (if stop >= 0 then 0 else (-stop - 1) / (-step) + 1)
  }

  lemma MulLeMono(a: int, b: int, c: nat)
    requires a <= b
    ensures a * c <= b * c
  {
  }

  lemma RangeBounds(stop: int, step: int)
    requires step != 0
    ensures step > 0 ==> forall k :: 0 <= k < RangeLen(stop, step) ==> k * step < stop
    ensures step > 0 ==> RangeLen(stop, step) * step >= stop
    ensures step < 0 ==> forall k :: 0 <= k < RangeLen(stop, step) ==> k * step > stop
    ensures step < 0 ==> RangeLen(stop, step) * step <= stop
  {
    if step > 0 {
      RangeBoundsUp(stop, step);
    } else {
      RangeBoundsDown(stop, step);
    }
  }

  lemma RangeBoundsUp(stop: int, step: int)
    requires step > 0
    ensures forall k :: 0 <= k < RangeLen(stop, step) ==> k * step < stop
    ensures RangeLen(stop, step) * step >= stop
  {
    var n := RangeLen(stop, step);
    if stop > 0 {
      var q, rem := (stop - 1) / step, (stop - 1) % step;
      assert q * step + rem == stop - 1;
      forall k | 0 <= k < n ensures k * step < stop {
        MulLeMono(k, q, step);
      }
      assert n * step == q * step + step;
    }
  }

  lemma RangeBoundsDown(stop: int, step: int)
    requires step < 0
    ensures forall k :: 0 <= k < RangeLen(stop, step) ==> k * step > stop
    ensures RangeLen(stop, step) * step <= stop
  {
    var n := RangeLen(stop, step);
    if stop < 0 {
      var t := -step;
      var q, rem := (-stop - 1) / t, (-stop - 1) % t;
      assert q * t + rem == -stop - 1;
      forall k | 0 <= k < n ensures k * step > stop {
        MulLeMono(k, q, t);
        assert k * step == -(k * t);
      }
      assert n * step == -(q * t + t);
    }
  }

  lemma MultiplesNonNegative(n: nat, step: int)
    requires step > 0
    ensures forall k :: 0 <= k < n ==> 0 <= k * step
  {
    forall k | 0 <= k < n ensures 0 <= k * step {
      MulLeMono(0, k, step);
    }
  }

  /** `range(0, stop, step)`: the multiples of `step`, starting at 0, that lie strictly
      on the near side of `stop`, and no more. */
  function Range(stop: int, step: int): (r: seq<int>)
    requires step != 0
    ensures |r| == RangeLen(stop, step)
    ensures forall k :: 0 <= k < |r| ==> r[k] == k * step
    ensures step > 0 ==> (forall k :: 0 <= k < |r| ==> 0 <= r[k] < stop) && |r| * step >= stop
    ensures step < 0 ==> (forall k :: 0 <= k < |r| ==> r[k] > stop) && |r| * step <= stop
  {
    RangeBounds(stop, step);
    if step > 0 then MultiplesNonNegative(RangeLen(stop, step), step); seq(RangeLen(stop, step), k => k * step)
    else seq(RangeLen(stop, step), k => k * step)
  }

  ghost predicate StrictlyIncreasing(s: seq<int>)
  {
    forall i, j :: 0 <= i < j < |s| ==> s[i] < s[j]
  }

  /** Inserts `x` into an ascending duplicate-free sequence. */
  function Insert(x: int, s: seq<int>): (r: seq<int>)
    requires StrictlyIncreasing(s)
    ensures StrictlyIncreasing(r)
    ensures forall y :: y in r <==> y == x || y in s
  {
    if s == [] then [x]
    else if x < s[0] then [x] + s
    else if x == s[0] then s
    else
      var rest := Insert(x, s[1..]);
      assert forall y :: y in rest ==> s[0] < y;
      assert forall y :: y in s <==> y == s[0] || y in s[1..];
      var r := [s[0]] + rest;
      assert forall j :: 0 < j < |r| ==> r[j] in rest;
      r
  }

  /** `np.unique`: the distinct values, ascending. */
  function Unique(s: seq<int>): (r: seq<int>)
    ensures StrictlyIncreasing(r)
    ensures forall x :: x in r <==> x in s
    ensures |r| <= |s|
  {
    if s == [] then []
    else
      var init := s[..|s| - 1];
      var u := Unique(init);
      assert forall x :: x in s <==> x in init || x == s[|s| - 1];
      var r := Insert(s[|s| - 1], u);
      UniqueBound(r, s);
      r
  }

  /** A duplicate-free sequence of elements of `s` is no longer than `s`. */
  lemma UniqueBound(r: seq<int>, s: seq<int>)
    requires StrictlyIncreasing(r)
    requires forall x :: x in r ==> x in s
    ensures |r| <= |s|
  {
    var rs := set x | x in r;
    var ss := set x | x in s;
    forall x | x in rs ensures x in ss { }
    assert rs <= ss;
    DistinctCard(r);
    SetOfSeqCard(s);
    assert ss == rs + (ss - rs);
    assert rs !! (ss - rs);
  }

  lemma DistinctCard(r: seq<int>)
    requires StrictlyIncreasing(r)
    ensures |set x | x in r| == |r|
  {
    if r != [] {
      var rest := r[1..];
      DistinctCard(rest);
      assert (set x | x in r) == {r[0]} + (set x | x in rest);
      assert r[0] !in rest;
    }
  }

  lemma SetOfSeqCard(s: seq<int>)
    ensures |set x | x in s| <= |s|
  {
    if s != [] {
      SetOfSeqCard(s[1..]);
      assert (set x | x in s) == {s[0]} + (set x | x in s[1..]);
    }
  }

  /** A `for x in xs` loop that appends one row per element: the rows in order, or the
      exception of the first element whose row fails, which ends the loop. */
  function Collect<X, R>(f: X -> Result<R>, xs: seq<X>): Result<seq<R>>
  {
    if xs == [] then Ok([])
    else
      match Collect(f, xs[..|xs| - 1])
      case Err(e) => Err(e)
      case Ok(rows) =>
        match f(xs[|xs| - 1])
        case Err(e) => Err(e)
        case Ok(row) => Ok(rows + [row])
  }

  /** Once a prefix of the loop has failed, the loop reports that failure. */
  lemma {:induction false} CollectErrorPersists<X, R>(f: X -> Result<R>, xs: seq<X>, n: nat)
    requires n <= |xs|
    requires Collect(f, xs[..n]).Err?
    ensures Collect(f, xs) == Collect(f, xs[..n])
    decreases |xs|
  {
    if n < |xs| {
      var init := xs[..|xs| - 1];
      assert init[..n] == xs[..n];
      CollectErrorPersists(f, init, n);
    } else {
      assert xs[..n] == xs;
    }
  }

  /** The loop completes exactly when every element's row succeeds ... */
  lemma {:induction false} CollectOkIff<X, R>(f: X -> Result<R>, xs: seq<X>)
    ensures Collect(f, xs).Ok? <==> forall k :: 0 <= k < |xs| ==> f(xs[k]).Ok?
  {
    if xs != [] {
      var init := xs[..|xs| - 1];
      CollectOkIff(f, init);
      if Collect(f, init).Ok? {
        forall k | 0 <= k < |init| ensures f(xs[k]).Ok? {
          assert init[k] == xs[k];
        }
      } else {
        var k :| 0 <= k < |init| && f(init[k]).Err?;
        assert init[k] == xs[k];
      }
    }
  }

  /** ... and then holds one row per element, in order. */
  lemma {:induction false} CollectOk<X, R>(f: X -> Result<R>, xs: seq<X>)
    requires Collect(f, xs).Ok?
    ensures |Collect(f, xs).value| == |xs|
    ensures forall k :: 0 <= k < |xs| ==> f(xs[k]).Ok? && Collect(f, xs).value[k] == f(xs[k]).value
  {
    CollectOkIff(f, xs);
    if xs != [] {
      var init := xs[..|xs| - 1];
      CollectOk(f, init);
      var rows := Collect(f, init).value;
      assert Collect(f, xs).value == rows + [f(xs[|xs| - 1]).value];
      forall k | 0 <= k < |init| ensures Collect(f, xs).value[k] == f(xs[k]).value {
        assert init[k] == xs[k];
      }
    }
  }

  /** The loop itself. */
  method CollectLoop<X, R>(f: X -> Result<R>, xs: seq<X>) returns (r: Result<seq<R>>)
    ensures r == Collect(f, xs)
  {
    var rows: seq<R> := [];
    var k := 0;
    while k < |xs|
      invariant 0 <= k <= |xs|
      invariant Collect(f, xs[..k]) == Ok(rows)
    {
      assert xs[..k + 1][..k] == xs[..k];
      var row := f(xs[k]);
      if row.Err? {
        CollectErrorPersists(f, xs, k + 1);
        return Err(row.error);
      }
      rows := rows + [row.value];
      k := k + 1;
    }
    assert xs[..k] == xs;
    r := Ok(rows);
  }
}
