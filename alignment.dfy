/** Drift correction of a slice stack (`StackAligner`): estimate one (dy, dx)
    shift per slice against a reference slice, then resample every slice by
    its shift. Phase correlation and resampling are library routines; they
    enter as function values given by the caller. */
module Alignment {
  import opened Volumes

  /** One (Y, X) slice of a volume. */
  type Plane = seq<seq<real>>

  /** What phase correlation returns for two 2-D images: a shift vector whose
      first two entries are (shift_y, shift_x). */
  type ShiftVector = s: seq<real> | |s| >= 2 witness [0.0, 0.0]

  /** `phase_cross_correlation(reference, moving, upsample_factor)`, its
      shift vector only. */
  type Correlator = (Plane, Plane, int) -> ShiftVector

  /** `nd_shift(slice, shift=(dy, dx), order=1, mode="nearest")`. */
  type Resampler = (Plane, real, real) -> Plane

  /** Resampling returns a slice of the shape it was given. */
  ghost predicate PreservesShape(resample: Resampler) {
    forall p, dy, dx, ny: nat, nx: nat :: IsPlane(p, ny, nx) ==> IsPlane(resample(p, dy, dx), ny, nx)
  }

  /** The shift table `estimate_shifts` is meant to produce: the reference
      row is zero, and every other row is the first two components of the
      correlation of the reference slice with that slice. */
  function ShiftTable(v: Grid<real>, ref: nat, upsample: int, correlate: Correlator): (t: seq<(real, real)>)
    requires v.Valid() && ref < v.nz
    ensures |t| == v.nz
  {
    seq(v.nz, idx requires 0 <= idx < v.nz =>
      if idx == ref then (0.0, 0.0)
      else
        var s := correlate(v.cells[ref], v.cells[idx], upsample);
        (s[0], s[1]))
  }

  /** The (dy, dx) rows of a shift array with at least two columns. */
  function Rows(shifts: array2<real>): (t: seq<(real, real)>)
    reads shifts
    requires shifts.Length1 >= 2
    ensures |t| == shifts.Length0
    ensures forall i :: 0 <= i < shifts.Length0 ==> t[i] == (shifts[i, 0], shifts[i, 1])
  {
    seq(shifts.Length0, i requires 0 <= i < shifts.Length0 reads shifts => (shifts[i, 0], shifts[i, 1]))
  }

  /** The volume `apply_shifts` is meant to produce: slice i resampled by row
      i of the table, the shift passed on as it is. */
  function Corrected(v: Grid<real>, table: seq<(real, real)>, resample: Resampler): (w: Grid<real>)
    requires v.Valid() && |table| == v.nz && PreservesShape(resample)
    ensures w.Valid() && w.nz == v.nz && w.ny == v.ny && w.nx == v.nx
  {
    ResampledSlices(v, table, resample);
    Grid(v.nz, v.ny, v.nx, seq(v.nz, i requires 0 <= i < v.nz => resample(v.cells[i], table[i].0, table[i].1)))
  }

  lemma ResampledSlices(v: Grid<real>, table: seq<(real, real)>, resample: Resampler)
    requires v.Valid() && |table| == v.nz && PreservesShape(resample)
    ensures forall i :: 0 <= i < v.nz ==> IsPlane(resample(v.cells[i], table[i].0, table[i].1), v.ny, v.nx)
  {
    forall i | 0 <= i < v.nz
      ensures IsPlane(resample(v.cells[i], table[i].0, table[i].1), v.ny, v.nx)
    {
      var dy, dx := table[i].0, table[i].1;
      assert IsPlane(v.cells[i], v.ny, v.nx);
      assert IsPlane(resample(v.cells[i], dy, dx), v.ny, v.nx);
    }
  }

  /** Alignment outputs: the shift table and the drift-corrected volume. */
  datatype AlignmentResult = AlignmentResult(shifts: array2<real>, alignedVolume: Grid<real>)

  class StackAligner {
    var upsampleFactor: int
    var referenceIdx: int

    constructor (upsampleFactor: int := 10, referenceIdx: int := 0)
      ensures this.upsampleFactor == upsampleFactor && this.referenceIdx == referenceIdx
    {
      this.upsampleFactor := upsampleFactor;
      this.referenceIdx := referenceIdx;
    }

    /** `estimate_shifts`: a Z x 2 table, zero at the reference row and the
        correlation shift of every other slice against the reference. */
    method EstimateShifts(volume: NdArray, correlate: Correlator) returns (r: Result<array2<real>>)
      requires volume.Valid()
      requires volume.Rank3? ==> 0 <= referenceIdx < volume.vol.nz
      ensures r.Failure? <==> !volume.Rank3?
      ensures r.Failure? ==> r.error == NotThreeDimensional
      ensures r.Success? ==> fresh(r.value) && r.value.Length0 == volume.vol.nz && r.value.Length1 == 2
      ensures r.Success? ==> r.value[referenceIdx, 0] == 0.0 && r.value[referenceIdx, 1] == 0.0
      ensures r.Success? ==> forall idx :: 0 <= idx < volume.vol.nz && idx != referenceIdx ==>
                r.value[idx, 0] == correlate(volume.vol.cells[referenceIdx], volume.vol.cells[idx], upsampleFactor)[0] &&
                r.value[idx, 1] == correlate(volume.vol.cells[referenceIdx], volume.vol.cells[idx], upsampleFactor)[1]
      ensures r.Success? ==> Rows(r.value) == ShiftTable(volume.vol, referenceIdx, upsampleFactor, correlate)
    {
      if !volume.Rank3? {
        return Failure(NotThreeDimensional);
      }
      var v := volume.vol;
      var z := v.nz;
      var shifts := new real[z, 2]((i, j) => 0.0);
      var ref := v.cells[referenceIdx];
      for idx := 0 to z
        invariant forall i :: 0 <= i < idx && i != referenceIdx ==>
                    shifts[i, 0] == correlate(ref, v.cells[i], upsampleFactor)[0] &&
                    shifts[i, 1] == correlate(ref, v.cells[i], upsampleFactor)[1]
        invariant forall i :: idx <= i < z || i == referenceIdx ==> 0 <= i < z ==>
                    shifts[i, 0] == 0.0 && shifts[i, 1] == 0.0
      {
        if idx == referenceIdx {
          continue;
        }
        var moving := v.cells[idx];
        var shiftVec := correlate(ref, moving, upsampleFactor);
        shifts[idx, 0] := shiftVec[0];
        shifts[idx, 1] := shiftVec[1];
      }
      assert Rows(shifts) == ShiftTable(v, referenceIdx, upsampleFactor, correlate);
      return Success(shifts);
    }

    /** `apply_shifts`: slice i resampled by row i of the table, after
        checking that the table has one row per slice. */
    method ApplyShifts(volume: Grid<real>, shifts: array2<real>, resample: Resampler) returns (r: Result<Grid<real>>)
      requires volume.Valid() && PreservesShape(resample)
      ensures r.Failure? <==> shifts.Length0 != volume.nz || (volume.nz > 0 && shifts.Length1 < 2)
      ensures shifts.Length0 != volume.nz ==> r == Failure(ShiftCountMismatch)
      ensures shifts.Length0 == volume.nz && volume.nz > 0 && shifts.Length1 < 2 ==> r == Failure(ShiftRowTooShort)
      ensures r.Success? ==> r.value.Valid() && r.value.nz == volume.nz && r.value.ny == volume.ny && r.value.nx == volume.nx
      ensures r.Success? ==> forall idx :: 0 <= idx < volume.nz ==>
                r.value.cells[idx] == resample(volume.cells[idx], shifts[idx, 0], shifts[idx, 1])
      ensures r.Success? && shifts.Length1 >= 2 ==> r.value == Corrected(volume, Rows(shifts), resample)
    {
      if shifts.Length0 != volume.nz {
        return Failure(ShiftCountMismatch);
      }
      var aligned := new Plane[volume.nz];
      for idx := 0 to volume.nz
        invariant idx > 0 ==> shifts.Length1 >= 2
        invariant forall i :: 0 <= i < idx ==> aligned[i] == resample(volume.cells[i], shifts[i, 0], shifts[i, 1])
      {
        if shifts.Length1 < 2 {
          return Failure(ShiftRowTooShort);
        }
        var dy, dx := shifts[idx, 0], shifts[idx, 1];
        aligned[idx] := resample(volume.cells[idx], dy, dx);
      }
      r := Success(Grid(volume.nz, volume.ny, volume.nx, aligned[..]));
      if shifts.Length1 >= 2 {
        assert r.value == Corrected(volume, Rows(shifts), resample);
      }
    }

    /** `align`: estimate the shifts, then apply them. */
    method Align(volume: NdArray, correlate: Correlator, resample: Resampler) returns (r: Result<AlignmentResult>)
      requires volume.Valid() && PreservesShape(resample)
      requires volume.Rank3? ==> 0 <= referenceIdx < volume.vol.nz
      ensures r.Failure? <==> !volume.Rank3?
      ensures r.Failure? ==> r.error == NotThreeDimensional
      ensures r.Success? ==> fresh(r.value.shifts)
      ensures r.Success? ==> r.value.shifts.Length0 == volume.vol.nz && r.value.shifts.Length1 == 2
      ensures r.Success? ==> Rows(r.value.shifts) == ShiftTable(volume.vol, referenceIdx, upsampleFactor, correlate)
      ensures r.Success? ==>
                r.value.alignedVolume == Corrected(volume.vol, ShiftTable(volume.vol, referenceIdx, upsampleFactor, correlate), resample)
    {
      var est := EstimateShifts(volume, correlate);
      if est.Failure? {
        return Failure(est.error);
      }
      var shifts := est.value;
      var aligned := ApplyShifts(volume.vol, shifts, resample);
      return Success(AlignmentResult(shifts, aligned.value));
    }
  }

  /** The reference row of the table is exactly (0, 0), whatever the
      correlation returns. */
  lemma ReferenceRowIsZero(v: Grid<real>, ref: nat, upsample: int, correlate: Correlator)
    requires v.Valid() && ref < v.nz
    ensures ShiftTable(v, ref, upsample, correlate)[ref] == (0.0, 0.0)
  {
  }

  /** A stack of identical slices, with a correlation that finds no shift
      between an image and itself, gives an all-zero table. */
  lemma IdenticalSlicesGiveZeroTable(v: Grid<real>, ref: nat, upsample: int, correlate: Correlator)
    requires v.Valid() && ref < v.nz
    requires forall i :: 0 <= i < v.nz ==> v.cells[i] == v.cells[ref]
    requires correlate(v.cells[ref], v.cells[ref], upsample)[0] == 0.0
    requires correlate(v.cells[ref], v.cells[ref], upsample)[1] == 0.0
    ensures forall i :: 0 <= i < v.nz ==> ShiftTable(v, ref, upsample, correlate)[i] == (0.0, 0.0)
  {
  }

  /** Corrected slice i depends on slice i and row i of the table only. */
  lemma CorrectedIsPerSlice(v: Grid<real>, t: seq<(real, real)>, v': Grid<real>, t': seq<(real, real)>,
                            resample: Resampler, i: nat)
    requires v.Valid() && |t| == v.nz && v'.Valid() && |t'| == v'.nz && PreservesShape(resample)
    requires i < v.nz && i < v'.nz && v.cells[i] == v'.cells[i] && t[i] == t'[i]
    ensures Corrected(v, t, resample).cells[i] == Corrected(v', t', resample).cells[i]
  {
  }

  /** Estimating, then applying, the shifts of a drift-free stack returns the
      stack itself, provided the correlation finds no shift between an image
      and itself and a zero shift resamples nothing. */
  lemma ZeroDriftRoundTrip(v: Grid<real>, ref: nat, upsample: int, correlate: Correlator, resample: Resampler)
    requires v.Valid() && ref < v.nz && PreservesShape(resample)
    requires forall i :: 0 <= i < v.nz ==> v.cells[i] == v.cells[ref]
    requires correlate(v.cells[ref], v.cells[ref], upsample)[0] == 0.0
    requires correlate(v.cells[ref], v.cells[ref], upsample)[1] == 0.0
    requires resample(v.cells[ref], 0.0, 0.0) == v.cells[ref]
    ensures Corrected(v, ShiftTable(v, ref, upsample, correlate), resample) == v
  {
    var t := ShiftTable(v, ref, upsample, correlate);
    IdenticalSlicesGiveZeroTable(v, ref, upsample, correlate);
    var w := Corrected(v, t, resample);
    forall i | 0 <= i < v.nz
      ensures w.cells[i] == v.cells[i]
    {
      assert t[i] == (0.0, 0.0);
    }
    assert w.cells == v.cells;
  }
}
