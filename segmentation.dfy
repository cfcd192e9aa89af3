/** Threshold segmentation of a volume into a boolean mask (`Segmenter`). */
module Segmentation {
  import opened Volumes

  /** `threshold_otsu(volume)`, a library routine. */
  type OtsuThreshold = Grid<real> -> real

  /** `volume >= t`, elementwise. */
  function AtLeast(v: Grid<real>, t: real): (m: Grid<bool>)
    requires v.Valid()
    ensures m.Valid() && m.nz == v.nz && m.ny == v.ny && m.nx == v.nx
    ensures forall i, j, k :: v.InBounds(i, j, k) ==> (m.cells[i][j][k] <==> t <= v.cells[i][j][k])
  {
    v.Map(x => x >= t)
  }

  /** A mask of the volume's shape that, with any voxel it selects, also
      selects every voxel at least as bright. */
  ghost predicate UpwardClosed(v: Grid<real>, m: Grid<bool>) {
    && v.Valid() && m.Valid() && m.nz == v.nz && m.ny == v.ny && m.nx == v.nx
    && forall i, j, k, i', j', k' ::
         (v.InBounds(i, j, k) && v.InBounds(i', j', k') &&
          m.cells[i][j][k] && v.cells[i][j][k] <= v.cells[i'][j'][k'])
         ==> m.cells[i'][j'][k']
  }

  /** The mid-range threshold of the "global" method. */
  function MidRange(vs: seq<real>): (t: real)
    requires vs != []
    ensures Min(vs) <= t <= Max(vs)
    ensures Min(vs) < Max(vs) ==> Min(vs) < t
  {
    (Min(vs) + Max(vs)) / 2.0
  }

  /** `Segmenter(method="otsu", model_path=None)`; `model_path` is kept and
      never used. */
  datatype Segmenter = Segmenter(methodName: string := "otsu", modelPath: Option<string> := None) {

    /** `Segmenter.segment`: the 3-D check, then a threshold mask for the
        "otsu" or "global" method, or an error for any other method. The
        "global" method reads the minimum and maximum, which numpy refuses
        for a volume without voxels. */
    function Segment(volume: NdArray, otsu: OtsuThreshold): (r: Result<Grid<bool>>)
      requires volume.Valid()
      ensures !volume.Rank3? ==> r == Failure(NotThreeDimensional)
      ensures volume.Rank3? && methodName != "otsu" && methodName != "global" ==>
                r == Failure(UnknownMethod(methodName))
      ensures volume.Rank3? && methodName == "otsu" ==> r.Success?
      ensures volume.Rank3? && methodName == "global" ==>
                (r.Success? <==> volume.Values() != []) &&
                (r.Failure? ==> r.error == ZeroSizeReduction)
      ensures r.Success? ==> volume.Rank3? && UpwardClosed(volume.vol, r.value)
      ensures r.Success? && methodName == "otsu" ==> forall i, j, k :: volume.vol.InBounds(i, j, k) ==>
                r.value.cells[i][j][k] == (volume.vol.cells[i][j][k] >= otsu(volume.vol))
      ensures r.Success? && methodName == "global" ==> forall i, j, k :: volume.vol.InBounds(i, j, k) ==>
                r.value.cells[i][j][k] == (volume.vol.cells[i][j][k] >= MidRange(volume.Values()))
    {
      if !volume.Rank3? then Failure(NotThreeDimensional)
      else if methodName == "otsu" then
        Success(AtLeast(volume.vol, otsu(volume.vol)))
      else if methodName == "global" then
        var vs := volume.Values();
        if vs == [] then Failure(ZeroSizeReduction)
        else Success(AtLeast(volume.vol, MidRange(vs)))
      else Failure(UnknownMethod(methodName))
    }
  }

  /** Under "global", every voxel at the maximum is selected; when the volume
      is not flat, every voxel at the minimum is not. */
  lemma GlobalEndpoints(s: Segmenter, volume: NdArray, otsu: OtsuThreshold, i: nat, j: nat, k: nat)
    requires s.methodName == "global"
    requires volume.Valid() && volume.Rank3? && volume.vol.InBounds(i, j, k)
    ensures s.Segment(volume, otsu).Success?
    ensures volume.vol.cells[i][j][k] == Max(volume.Values()) ==>
              s.Segment(volume, otsu).value.cells[i][j][k]
    ensures volume.vol.cells[i][j][k] == Min(volume.Values()) && Min(volume.Values()) < Max(volume.Values()) ==>
              !s.Segment(volume, otsu).value.cells[i][j][k]
  {
    FlattenHas(volume.vol.cells, i, j, k);
  }

  /** Under "global", a constant volume is selected entirely. */
  lemma GlobalConstantSelectsAll(s: Segmenter, volume: NdArray, otsu: OtsuThreshold, c: real)
    requires s.methodName == "global"
    requires volume.Valid() && volume.Rank3? && volume.Values() != []
    requires forall i, j, k :: volume.vol.InBounds(i, j, k) ==> volume.vol.cells[i][j][k] == c
    ensures s.Segment(volume, otsu).Success?
    ensures forall i, j, k :: volume.vol.InBounds(i, j, k) ==>
              s.Segment(volume, otsu).value.cells[i][j][k]
  {
    var vs := volume.Values();
    var i, j, k := FlattenFrom(volume.vol.cells, Min(vs));
    var i', j', k' := FlattenFrom(volume.vol.cells, Max(vs));
    assert volume.vol.InBounds(i, j, k) && volume.vol.InBounds(i', j', k');
  }
}
