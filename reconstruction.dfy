/** Post-processing of a reconstructed volume (`VolumeReconstructor`):
    min/max intensity normalisation, margin cropping, and the two composed.
    The class holds no state, so its methods are functions here. */
module Reconstruction {
  import opened Volumes

  // ---------------------------------------------------------------------
  // preprocess
  // ---------------------------------------------------------------------

  /** Where one sample goes under min/max normalisation of an array whose
      minimum is `lo` and maximum is `hi`; a flat array (hi <= lo) maps
      everything to zero. */
  function Normalized(x: real, lo: real, hi: real): (y: real)
    ensures hi <= lo ==> y == 0.0
    ensures lo < hi ==> y * (hi - lo) == x - lo
  {
    if hi <= lo then 0.0 else (x - lo) / (hi - lo)
  }

  /** `VolumeReconstructor.preprocess`: rescale intensities into [0, 1] by
      the array's own minimum and maximum, or return zeros for a flat array.
      numpy's min and max refuse an array with no elements. */
  function Preprocess(a: NdArray): (r: Result<NdArray>)
    requires a.Valid()
    ensures r.Failure? <==> a.Values() == []
    ensures r.Failure? ==> r.error == ZeroSizeReduction
    ensures r.Success? ==> r.value.Valid() && r.value.Rank3? == a.Rank3? && r.value.Shape() == a.Shape()
    ensures r.Success? ==> |r.value.Values()| == |a.Values()|
    ensures r.Success? ==> forall n :: 0 <= n < |a.Values()| ==>
              r.value.Values()[n] == Normalized(a.Values()[n], Min(a.Values()), Max(a.Values()))
    ensures r.Success? && a.Rank3? ==> forall i, j, k :: a.vol.InBounds(i, j, k) ==>
              r.value.vol.cells[i][j][k] == Normalized(a.vol.cells[i][j][k], Min(a.Values()), Max(a.Values()))
  {
    var vs := a.Values();
    if vs == [] then Failure(ZeroSizeReduction)
    else
      var vmin := Min(vs);
      var vmax := Max(vs);
      if vmax <= vmin then Success(a.Map(x => 0.0))
      else Success(a.Map(x => Normalized(x, vmin, vmax)))
  }

  lemma UnitQuotient(p: real, d: real)
    requires 0.0 <= p <= d && 0.0 < d
    ensures 0.0 <= p / d <= 1.0
  {
    assert p / d <= d / d == 1.0;
  }

  lemma NormalizedInUnitRange(x: real, lo: real, hi: real)
    requires lo <= x <= hi
    ensures 0.0 <= Normalized(x, lo, hi) <= 1.0
  {
    if lo < hi {
      UnitQuotient(x - lo, hi - lo);
    }
  }

  lemma NormalizedMonotone(x: real, y: real, lo: real, hi: real)
    requires x <= y
    ensures Normalized(x, lo, hi) <= Normalized(y, lo, hi)
    ensures lo < hi && x < y ==> Normalized(x, lo, hi) < Normalized(y, lo, hi)
  {
    if lo < hi {
      assert (y - lo) / (hi - lo) - (x - lo) / (hi - lo) == (y - x) / (hi - lo);
    }
  }

  lemma NormalizedAtMax(lo: real, hi: real)
    requires lo < hi
    ensures Normalized(hi, lo, hi) == 1.0
  {
    assert (hi - lo) / (hi - lo) == 1.0;
  }

  /** Every sample `preprocess` produces lies in [0, 1]. */
  lemma PreprocessInUnitRange(a: NdArray)
    requires a.Valid() && a.Values() != []
    ensures forall y :: y in Preprocess(a).value.Values() ==> 0.0 <= y <= 1.0
  {
    var vs, ws := a.Values(), Preprocess(a).value.Values();
    forall y | y in ws
      ensures 0.0 <= y <= 1.0
    {
      var n :| 0 <= n < |ws| && ws[n] == y;
      assert vs[n] in vs;
      NormalizedInUnitRange(vs[n], Min(vs), Max(vs));
    }
  }

  /** A flat array (maximum not above minimum) becomes all zeros, keeping its shape. */
  lemma PreprocessFlatIsZero(a: NdArray)
    requires a.Valid() && a.Values() != [] && Max(a.Values()) <= Min(a.Values())
    ensures Preprocess(a).Success?
    ensures Preprocess(a).value.Shape() == a.Shape()
    ensures forall y :: y in Preprocess(a).value.Values() ==> y == 0.0
  {
  }

  /** Otherwise the minimum goes to 0, the maximum to 1, and these are the
      minimum and maximum of the result. */
  lemma PreprocessEndpoints(a: NdArray)
    requires a.Valid() && a.Values() != [] && Min(a.Values()) < Max(a.Values())
    ensures forall n :: 0 <= n < |a.Values()| && a.Values()[n] == Min(a.Values()) ==>
              Preprocess(a).value.Values()[n] == 0.0
    ensures forall n :: 0 <= n < |a.Values()| && a.Values()[n] == Max(a.Values()) ==>
              Preprocess(a).value.Values()[n] == 1.0
    ensures Min(Preprocess(a).value.Values()) == 0.0
    ensures Max(Preprocess(a).value.Values()) == 1.0
  {
    var vs, ws := a.Values(), Preprocess(a).value.Values();
    var lo, hi := Min(vs), Max(vs);
    var nlo :| 0 <= nlo < |vs| && vs[nlo] == lo;
    var nhi :| 0 <= nhi < |vs| && vs[nhi] == hi;
    NormalizedAtMax(lo, hi);
    assert ws[nlo] == 0.0 && ws[nhi] == 1.0;
    PreprocessInUnitRange(a);
    MinIs(ws, 0.0);
    MaxIs(ws, 1.0);
  }

  /** Normalisation keeps the order of samples, strictly so unless the array is flat. */
  lemma PreprocessMonotone(a: NdArray, n: nat, m: nat)
    requires a.Valid() && n < |a.Values()| && m < |a.Values()|
    requires a.Values()[n] <= a.Values()[m]
    ensures Preprocess(a).value.Values()[n] <= Preprocess(a).value.Values()[m]
    ensures Min(a.Values()) < Max(a.Values()) && a.Values()[n] < a.Values()[m] ==>
              Preprocess(a).value.Values()[n] < Preprocess(a).value.Values()[m]
  {
    NormalizedMonotone(a.Values()[n], a.Values()[m], Min(a.Values()), Max(a.Values()));
  }

  /** Two arrays of the same rank and shape with the same samples are equal. */
  lemma SameSamples(a: NdArray, b: NdArray)
    requires a.Valid() && b.Valid() && a.Rank3? == b.Rank3? && a.Shape() == b.Shape()
    requires a.Values() == b.Values()
    requires a.Rank3? ==> forall i, j, k :: a.vol.InBounds(i, j, k) ==> a.vol.cells[i][j][k] == b.vol.cells[i][j][k]
    ensures a == b
  {
    if a.Rank3? {
      var v, w := a.vol, b.vol;
      forall i | 0 <= i < v.nz
        ensures v.cells[i] == w.cells[i]
      {
        forall j | 0 <= j < v.ny
          ensures v.cells[i][j] == w.cells[i][j]
        {
          assert forall k :: 0 <= k < v.nx ==> v.InBounds(i, j, k);
        }
      }
      assert v.cells == w.cells;
    }
  }

  lemma NormalizedUnit(x: real)
    ensures Normalized(x, 0.0, 1.0) == x
  {
  }

  /** `preprocess` is idempotent: a normalised (or all-zero) array is
      returned as it is. */
  lemma PreprocessIdempotent(a: NdArray)
    requires a.Valid() && a.Values() != []
    ensures Preprocess(Preprocess(a).value) == Preprocess(a)
  {
    if Min(a.Values()) < Max(a.Values()) {
      RenormalizeSpread(a);
    } else {
      RenormalizeFlat(a);
    }
  }

  /** A non-flat array normalises onto [0, 1] with both endpoints taken,
      which the next normalisation leaves as it is. */
  lemma RenormalizeSpread(a: NdArray)
    requires a.Valid() && a.Values() != [] && Min(a.Values()) < Max(a.Values())
    ensures Preprocess(Preprocess(a).value) == Preprocess(a)
  {
    PreprocessEndpoints(a);
    UnitRangeIsFixed(Preprocess(a).value);
  }

  /** An array whose minimum is 0 and maximum is 1 is its own normalisation. */
  lemma UnitRangeIsFixed(b: NdArray)
    requires b.Valid() && b.Values() != [] && Min(b.Values()) == 0.0 && Max(b.Values()) == 1.0
    ensures Preprocess(b) == Success(b)
  {
    var ws := b.Values();
    var c := Preprocess(b).value;
    forall n | 0 <= n < |ws|
      ensures c.Values()[n] == ws[n]
    {
      NormalizedUnit(ws[n]);
    }
    if b.Rank3? {
      forall i, j, k | b.vol.InBounds(i, j, k)
        ensures c.vol.cells[i][j][k] == b.vol.cells[i][j][k]
      {
        NormalizedUnit(b.vol.cells[i][j][k]);
      }
    }
    assert c.Values() == ws;
    SameSamples(c, b);
  }

  /** A flat array becomes all zeros, which is flat again and stays zero. */
  lemma RenormalizeFlat(a: NdArray)
    requires a.Valid() && a.Values() != [] && Max(a.Values()) <= Min(a.Values())
    ensures Preprocess(Preprocess(a).value) == Preprocess(a)
  {
    var b := Preprocess(a).value;
    var ws := b.Values();
    assert ws[0] in ws;
    MinIs(ws, 0.0);
    MaxIs(ws, 0.0);
    ZeroIsFixed(b);
  }

  /** An array whose minimum and maximum are both 0 is its own normalisation. */
  lemma ZeroIsFixed(b: NdArray)
    requires b.Valid() && b.Values() != [] && Min(b.Values()) == 0.0 && Max(b.Values()) == 0.0
    ensures Preprocess(b) == Success(b)
  {
    var ws := b.Values();
    var c := Preprocess(b).value;
    forall n | 0 <= n < |ws|
      ensures c.Values()[n] == ws[n]
    {
      assert ws[n] in ws;
    }
    if b.Rank3? {
      forall i, j, k | b.vol.InBounds(i, j, k)
        ensures c.vol.cells[i][j][k] == b.vol.cells[i][j][k]
      {
        FlattenHas(b.vol.cells, i, j, k);
      }
    }
    assert c.Values() == ws;
    SameSamples(c, b);
  }

  // ---------------------------------------------------------------------
  // crop_volume
  // ---------------------------------------------------------------------

  /** Length of Python's `s[start:stop]` for a sequence of length n and
      non-negative bounds: both bounds are clamped to n. */
  function SliceLength(n: nat, start: nat, stop: nat): nat {
    if start < stop && start < n then (if stop < n then stop else n) - start else 0
  }

  /** Python's `s[start:stop]` for non-negative bounds. */
  function PySlice<T>(s: seq<T>, start: nat, stop: nat): (r: seq<T>)
    ensures |r| == SliceLength(|s|, start, stop)
    ensures forall t :: 0 <= t < |r| ==> r[t] == s[start + t]
  {
    if start < stop && start < |s| then s[start..if stop < |s| then stop else |s|] else []
  }

  /** The stop of the per-axis crop slice, `max(n - margin, margin + 1)`. */
  function CropStop(n: nat, margin: nat): (s: nat)
    requires margin > 0
    ensures s >= n - margin && s >= margin + 1
    ensures s == n - margin || s == margin + 1
  {
    if n - margin >= margin + 1 then n - margin else margin + 1
  }

  /** The extent an axis of length n keeps after cropping `margin` > 0 from
      it: at least one sample while the margin is inside the axis, none once
      the margin reaches past it. */
  function CroppedExtent(n: nat, margin: nat): (e: nat)
    ensures e <= n
    ensures e > 0 ==> margin + e <= n
    ensures margin < n ==> 1 <= e
    ensures 2 * margin < n ==> e == n - 2 * margin
    ensures margin < n <= 2 * margin ==> e == 1
    ensures n <= margin ==> e == 0
  {
    if margin < n then (if n - 2 * margin > 1 then n - 2 * margin else 1) else 0
  }

  /** Cropping one axis of length n keeps `CroppedExtent(n, margin)` samples. */
  lemma CropAxisLength(n: nat, margin: nat)
    requires margin > 0
    ensures SliceLength(n, margin, CropStop(n, margin)) == CroppedExtent(n, margin)
  {
  }

  /** `plane[m:stop_y, m:stop_x]`. */
  function CropPlane<T>(p: seq<seq<T>>, margin: nat, sy: nat, sx: nat): (q: seq<seq<T>>)
    ensures |q| == SliceLength(|p|, margin, sy)
    ensures forall j :: 0 <= j < |q| ==> q[j] == PySlice(p[margin + j], margin, sx)
  {
    SeqMap(PySlice(p, margin, sy), (row: seq<T>) => PySlice(row, margin, sx))
  }

  /** `volume[m:stop_z, m:stop_y, m:stop_x]` for the crop stops of each axis. */
  function CropGrid<T>(g: Grid<T>, margin: nat): (c: Grid<T>)
    requires g.Valid() && margin > 0
    ensures c.Valid()
    ensures c.nz == CroppedExtent(g.nz, margin)
    ensures c.ny == CroppedExtent(g.ny, margin)
    ensures c.nx == CroppedExtent(g.nx, margin)
    ensures forall i, j, k :: c.InBounds(i, j, k) ==>
              g.InBounds(i + margin, j + margin, k + margin) &&
              c.cells[i][j][k] == g.cells[i + margin][j + margin][k + margin]
  {
    var c := Grid(CroppedExtent(g.nz, margin), CroppedExtent(g.ny, margin), CroppedExtent(g.nx, margin),
                  CroppedCells(g, margin));
    CroppedCellsFacts(g, margin);
    c
  }

  /** The planes of `volume[m:stop_z, m:stop_y, m:stop_x]`. */
  function CroppedCells<T>(g: Grid<T>, margin: nat): seq<seq<seq<T>>>
    requires margin > 0
  {
    var sz, sy, sx := CropStop(g.nz, margin), CropStop(g.ny, margin), CropStop(g.nx, margin);
    SeqMap(PySlice(g.cells, margin, sz), (p: seq<seq<T>>) => CropPlane(p, margin, sy, sx))
  }

  lemma CroppedCellsFacts<T>(g: Grid<T>, margin: nat)
    requires g.Valid() && margin > 0
    ensures |CroppedCells(g, margin)| == CroppedExtent(g.nz, margin)
    ensures forall i :: 0 <= i < CroppedExtent(g.nz, margin) ==>
              IsPlane(CroppedCells(g, margin)[i], CroppedExtent(g.ny, margin), CroppedExtent(g.nx, margin))
    ensures forall i, j, k ::
              0 <= i < CroppedExtent(g.nz, margin) && 0 <= j < CroppedExtent(g.ny, margin) &&
              0 <= k < CroppedExtent(g.nx, margin) ==>
              CroppedCells(g, margin)[i][j][k] == g.cells[i + margin][j + margin][k + margin]
  {
    var sz, sy, sx := CropStop(g.nz, margin), CropStop(g.ny, margin), CropStop(g.nx, margin);
    CropAxisLength(g.nz, margin);
    CropAxisLength(g.ny, margin);
    CropAxisLength(g.nx, margin);
    var planes := PySlice(g.cells, margin, sz);
    var cells := CroppedCells(g, margin);
    forall i | 0 <= i < CroppedExtent(g.nz, margin)
      ensures cells[i] == CropPlane(g.cells[margin + i], margin, sy, sx)
      ensures IsPlane(cells[i], CroppedExtent(g.ny, margin), CroppedExtent(g.nx, margin))
    {
      var p := g.cells[margin + i];
      assert planes[i] == p;
      forall j | 0 <= j < CroppedExtent(g.ny, margin)
        ensures |cells[i][j]| == CroppedExtent(g.nx, margin)
      {
        assert cells[i][j] == PySlice(p[margin + j], margin, sx);
      }
    }
    forall i, j, k |
      0 <= i < CroppedExtent(g.nz, margin) && 0 <= j < CroppedExtent(g.ny, margin) &&
      0 <= k < CroppedExtent(g.nx, margin)
      ensures g.InBounds(i + margin, j + margin, k + margin)
      ensures cells[i][j][k] == g.cells[i + margin][j + margin][k + margin]
    {
      var row := g.cells[margin + i][margin + j];
      assert cells[i][j] == PySlice(row, margin, sx);
      assert cells[i][j][k] == row[margin + k];
    }
  }

  /** `VolumeReconstructor.crop_volume`. A margin of zero or less returns the
      array itself (of any rank); otherwise the shape is unpacked into
      (z, y, x), so anything but a 3-D array raises, and each axis of length
      n keeps `CroppedExtent(n, margin)` samples, starting `margin` in. */
  function CropVolume(a: NdArray, margin: int := 0): (r: Result<NdArray>)
    requires a.Valid()
    ensures margin <= 0 ==> r == Success(a)
    ensures margin > 0 && !a.Rank3? ==> r == Failure(CannotUnpackShape)
    ensures margin > 0 && a.Rank3? ==> r.Success? && r.value.Rank3? && r.value.Valid()
    ensures margin > 0 && a.Rank3? ==>
              r.value.Shape() == [CroppedExtent(a.vol.nz, margin), CroppedExtent(a.vol.ny, margin),
                                  CroppedExtent(a.vol.nx, margin)]
    ensures margin > 0 && a.Rank3? && 2 * margin < a.vol.nz && 2 * margin < a.vol.ny && 2 * margin < a.vol.nx ==>
              r.value.Shape() == [a.vol.nz - 2 * margin, a.vol.ny - 2 * margin, a.vol.nx - 2 * margin]
    ensures margin > 0 && a.Rank3? ==> forall i, j, k :: r.value.vol.InBounds(i, j, k) ==>
              a.vol.InBounds(i + margin, j + margin, k + margin) &&
              r.value.vol.cells[i][j][k] == a.vol.cells[i + margin][j + margin][k + margin]
  {
    if margin <= 0 then Success(a)
    else
      match a
      case OtherRank(_, _) => Failure(CannotUnpackShape)
      case Rank3(v) => Success(Rank3(CropGrid(v, margin)))
  }

  /** A grid whose every sample is a sample of `g`, read at a fixed offset,
      holds no value that `g` does not hold. */
  lemma OffsetGridValues<T>(c: Grid<T>, g: Grid<T>, margin: nat)
    requires c.Valid() && g.Valid()
    requires forall i, j, k :: c.InBounds(i, j, k) ==>
               g.InBounds(i + margin, j + margin, k + margin) &&
               c.cells[i][j][k] == g.cells[i + margin][j + margin][k + margin]
    ensures forall y :: y in c.Values() ==> y in g.Values()
  {
    forall y | y in c.Values()
      ensures y in g.Values()
    {
      var i, j, k := FlattenFrom(c.cells, y);
      assert c.InBounds(i, j, k);
      FlattenHas(g.cells, i + margin, j + margin, k + margin);
    }
  }

  /** Cropping only keeps samples of the input: it introduces no value. */
  lemma CropKeepsValues(a: NdArray, margin: int)
    requires a.Valid()
    requires CropVolume(a, margin).Success?
    ensures forall y :: y in CropVolume(a, margin).value.Values() ==> y in a.Values()
  {
    if margin > 0 {
      OffsetGridValues(CropVolume(a, margin).value.vol, a.vol, margin);
    }
  }

  // ---------------------------------------------------------------------
  // build_volume
  // ---------------------------------------------------------------------

  /** `VolumeReconstructor.build_volume`: normalise, then crop. */
  function BuildVolume(stack: NdArray, margin: int := 0): (r: Result<NdArray>)
    requires stack.Valid()
    ensures Preprocess(stack).Success? ==> r == CropVolume(Preprocess(stack).value, margin)
    ensures margin <= 0 ==> r == Preprocess(stack)
    ensures stack.Values() == [] ==> r == Failure(ZeroSizeReduction)
    ensures stack.Values() != [] && margin > 0 && !stack.Rank3? ==> r == Failure(CannotUnpackShape)
    ensures r.Success? <==> stack.Values() != [] && (margin <= 0 || stack.Rank3?)
    ensures r.Success? ==> r.value.Valid() && forall y :: y in r.value.Values() ==> 0.0 <= y <= 1.0
    ensures r.Success? && margin > 0 ==>
              r.value.Shape() == [CroppedExtent(stack.vol.nz, margin), CroppedExtent(stack.vol.ny, margin),
                                  CroppedExtent(stack.vol.nx, margin)]
    ensures r.Success? && margin > 0 ==> forall i, j, k :: r.value.vol.InBounds(i, j, k) ==>
              stack.vol.InBounds(i + margin, j + margin, k + margin) &&
              r.value.vol.cells[i][j][k] ==
                Normalized(stack.vol.cells[i + margin][j + margin][k + margin], Min(stack.Values()), Max(stack.Values()))
  {
    match Preprocess(stack)
    case Failure(e) => Failure(e)
    case Success(pre) =>
      PreprocessInUnitRange(stack);
      var out := CropVolume(pre, margin);
      if out.Success? then CropKeepsValues(pre, margin); out else out
  }
}
