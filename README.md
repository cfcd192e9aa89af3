# tomo_pipeline core, modelled in Dafny

This project models the numerical core of a microscopy tomography pipeline.
A volume is a stack of 2-D slices, with axes (Z, Y, X). The model covers:

- **Reconstruction** (`VolumeReconstructor`, `reconstruction.dfy`).
  `preprocess` rescales intensities into [0, 1] by the volume's own minimum
  and maximum. A flat volume becomes all zeros. `crop_volume` removes a
  margin from every axis using Python slice semantics. `build_volume` does
  the two in turn.
- **Drift correction** (`StackAligner`, `alignment.dfy`).
  `estimate_shifts` fills a zeroed Z x 2 table row by row. Each row is the
  phase-correlation shift of that slice against the reference slice, and the
  reference row is skipped. `apply_shifts` resamples each slice by its row
  of the table. `align` does both.
- **Segmentation** (`Segmenter`, `segmentation.dfy`).
  `segment` thresholds the volume into a boolean mask, using either Otsu's
  threshold or the mid-range `(min + max) / 2`.

`volumes.dfy` holds the shared data model:

- `NdArray` is either a 3-D array (`Rank3`, a `Grid` with explicit extents
  `nz`, `ny` and `nx`) or an array of any other rank, whose elements are kept
  flat. This makes the `ndim != 3` errors expressible.
- `Result` carries the exceptions as `Error` values.
- `Min` and `Max` are numpy's reductions.

Samples are Dafny `real`s: the model uses ideal arithmetic, not float32.

The source's library routines are parameters of the model. They are
function-valued parameters rather than bodyless functions, so the model
adds no axioms about them:

- `phase_cross_correlation` is a `Correlator`, a function value from
  (reference slice, moving slice, upsample factor) to a shift vector with at
  least two entries.
- `scipy.ndimage.shift` is a `Resampler`. Callers promise `PreservesShape`:
  it returns a slice of the shape it was given.
- `threshold_otsu` is an `OtsuThreshold`, a function value from a volume to
  a real.

Behaviour the model follows, as the code does:

- `apply_shifts` passes the estimated `(dy, dx)` to the resampler unchanged
  (alignment.py:91-92). The model does not negate it.
  `StackAligner.ApplyShifts` and `Corrected` use each shift exactly as it is
  stored.
- The one-sample-per-axis guarantee of `crop_volume` holds only while the
  margin is smaller than the axis. The stop `max(n - m, m + 1)` is clamped to
  n by Python slicing, so an axis with `m >= n` ends up empty
  (`CroppedExtent`).
- numpy's `min()` and `max()` raise on an array with no elements. So
  `preprocess`, `build_volume` and the `"global"` branch of `segment` fail
  with `ZeroSizeReduction` on such an array.
- `crop_volume` with a positive margin unpacks `z, y, x = volume.shape`, so it
  raises for any array that is not 3-D (`CannotUnpackShape`). A margin of
  zero or less returns the array unchanged, whatever its rank.
- `apply_shifts` raises for a table with the wrong number of rows, before it
  allocates anything. It raises when a row has fewer than two entries, at the
  first slice. With a (Z, 3) table it reads only the first two columns.
- The source never checks `reference_idx`. The model requires
  `0 <= referenceIdx < Z` for a 3-D input. With `-Z <= reference_idx < 0`
  the reference slice is `volume[Z + reference_idx]`, but no row is skipped,
  so that row holds the self-correlation rather than exactly (0, 0). Any
  index below -Z, or of Z or more, raises IndexError when the reference
  slice is read (alignment.py:52), and so does every index when Z = 0.

## Model

| member | source | states |
|---|---|---|
| Volumes.Min | src/tomo_pipeline/reconstruction.py:18 | numpy's `min()` of a non-empty array is one of its elements and no larger than any element |
| Volumes.Max | src/tomo_pipeline/reconstruction.py:19 | numpy's `max()` of a non-empty array is one of its elements and no smaller than any element |
| Volumes.NoValuesIffEmptyAxis | src/tomo_pipeline/reconstruction.py:18-19 | a 3-D volume has no samples (so min/max raise) exactly when one of its three extents is zero |
| Reconstruction.Preprocess | src/tomo_pipeline/reconstruction.py:16-24 | fails exactly on an array without elements; otherwise keeps rank and shape and maps every sample v to (v - min)/(max - min), or to 0 when max <= min, voxel by voxel for a 3-D array |
| Reconstruction.Normalized | src/tomo_pipeline/reconstruction.py:20-23 | a flat range (max <= min) sends every sample to 0; otherwise the image y of x satisfies `y * (max - min) == x - min` |
| Reconstruction.PreprocessInUnitRange | src/tomo_pipeline/reconstruction.py:17-24 | every sample `preprocess` returns lies in [0, 1] |
| Reconstruction.PreprocessFlatIsZero | src/tomo_pipeline/reconstruction.py:18-21 | an array with max <= min becomes an all-zero array of the same shape |
| Reconstruction.PreprocessEndpoints | src/tomo_pipeline/reconstruction.py:18-24 | when max > min, samples at the minimum map to 0, samples at the maximum map to 1, and 0 and 1 are the minimum and maximum of the output |
| Reconstruction.PreprocessMonotone | src/tomo_pipeline/reconstruction.py:23 | normalisation preserves the order of any two samples, strictly when the array is not flat |
| Reconstruction.PreprocessIdempotent | src/tomo_pipeline/reconstruction.py:18-24 | normalising the output of `preprocess` again returns it unchanged |
| Reconstruction.UnitRangeIsFixed | src/tomo_pipeline/reconstruction.py:18-24 | an array whose minimum is 0 and maximum is 1 is returned by `preprocess` unchanged |
| Reconstruction.ZeroIsFixed | src/tomo_pipeline/reconstruction.py:18-21 | an array whose minimum and maximum are both 0 is returned by `preprocess` unchanged |
| Reconstruction.PySlice | src/tomo_pipeline/reconstruction.py:35 | Python's `s[start:stop]` with both bounds clamped to the length: its length, and element t is `s[start + t]` |
| Reconstruction.CropStop | src/tomo_pipeline/reconstruction.py:32-34 | the crop stop of an axis is `max(n - m, m + 1)`: at least both, and equal to one of them |
| Reconstruction.CroppedExtent | src/tomo_pipeline/reconstruction.py:32-35 | the cropped extent never exceeds the axis and, when positive, fits after the margin; it is exactly `n - 2m` when 2m < n, exactly 1 when m < n <= 2m, and 0 when m >= n |
| Reconstruction.CropAxisLength | src/tomo_pipeline/reconstruction.py:32-35 | slicing an axis of length n by `[m, max(n - m, m + 1))` keeps `max(n - 2m, 1)` samples when m < n, and none when m >= n |
| Reconstruction.CropGrid | src/tomo_pipeline/reconstruction.py:31-35 | the cropped grid is rectangular, has the cropped extent on each axis, and holds `v[i+m][j+m][k+m]` at `(i, j, k)` |
| Reconstruction.CropVolume | src/tomo_pipeline/reconstruction.py:26-36 | margin <= 0 (the default is 0) returns the input itself; a positive margin on a non-3-D array fails; otherwise the shape is the cropped extents, `(Z-2m, Y-2m, X-2m)` whenever 2m is below every extent, and every voxel is the input voxel offset by m on each axis |
| Reconstruction.CropKeepsValues | src/tomo_pipeline/reconstruction.py:35 | the cropped volume holds no value the input does not hold |
| Reconstruction.BuildVolume | src/tomo_pipeline/reconstruction.py:38-55 | whenever `preprocess` succeeds the result is `crop_volume` of its output with the same margin, and with margin <= 0 (the default 0) it is `preprocess(stack)` itself; fails exactly when the stack has no elements or a positive margin meets a non-3-D stack; all output samples lie in [0, 1]; with a positive margin, the shape is the cropped extents and each voxel is the normalised input voxel offset by the margin |
| Alignment.ShiftTable | src/tomo_pipeline/alignment.py:49-65 | the table `estimate_shifts` builds has one (dy, dx) row per slice; its rows are pinned down by ReferenceRowIsZero and by the EstimateShifts contract |
| Alignment.Corrected | src/tomo_pipeline/alignment.py:87-93 | resampling every slice by its table row yields a volume of the input's shape |
| Alignment.StackAligner.constructor | src/tomo_pipeline/alignment.py:25-27 | stores `upsample_factor` (default 10) and `reference_idx` (default 0) |
| Alignment.StackAligner.EstimateShifts | src/tomo_pipeline/alignment.py:32-67 | fails exactly on a non-3-D input; otherwise returns a fresh Z x 2 table whose reference row is (0, 0) and whose row idx is the first two components of the correlation of the reference slice with slice idx |
| Alignment.StackAligner.ApplyShifts | src/tomo_pipeline/alignment.py:69-93 | fails exactly when the row count differs from Z, or a row lacks two entries; otherwise returns a volume of the input's shape whose slice idx is `Resample(volume[idx], shifts[idx][0], shifts[idx][1])`, the shift used as given |
| Alignment.StackAligner.Align | src/tomo_pipeline/alignment.py:95-99 | fails exactly on a non-3-D input; otherwise the shifts are the estimated table and the aligned volume is that table applied to the input |
| Alignment.ReferenceRowIsZero | src/tomo_pipeline/alignment.py:50-56 | the reference row of the table is (0, 0), whatever the correlation returns |
| Alignment.IdenticalSlicesGiveZeroTable | src/tomo_pipeline/alignment.py:52-65 | a stack of identical slices gives an all-zero table when correlating an image with itself finds no shift |
| Alignment.CorrectedIsPerSlice | src/tomo_pipeline/alignment.py:88-92 | corrected slice i depends only on input slice i and row i of the table |
| Alignment.ZeroDriftRoundTrip | src/tomo_pipeline/alignment.py:95-99 | estimating and then applying the shifts of a drift-free stack returns the stack itself, when self-correlation finds no shift and a zero shift resamples nothing |
| Segmentation.AtLeast | src/tomo_pipeline/segmentation.py:42 | `volume >= t` keeps the volume's shape and selects a voxel exactly when its value is at least t |
| Segmentation.MidRange | src/tomo_pipeline/segmentation.py:47-48 | the "global" threshold `(min + max) / 2` lies between min and max, strictly above min when max > min |
| Segmentation.Segmenter.Segment | src/tomo_pipeline/segmentation.py:18-52 | a `Segmenter` holds the method (default "otsu") and model path (default none); non-3-D input fails; a method other than "otsu" or "global" fails; "otsu" selects voxels >= the Otsu threshold; "global" fails on an empty volume and otherwise selects voxels >= (min + max)/2; every mask has the volume's shape and is upward closed |
| Segmentation.GlobalEndpoints | src/tomo_pipeline/segmentation.py:45-50 | under "global", a voxel at the maximum is selected, and a voxel at the minimum is not when max > min |
| Segmentation.GlobalConstantSelectsAll | src/tomo_pipeline/segmentation.py:45-50 | under "global", a constant volume is selected entirely |

## Left out

- src/tomo_pipeline/io.py is not part of this model. It is file I/O: TIFF and .npy codecs, and directory listing.
- src/tomo_pipeline/filters.py is not part of this model. It holds denoising library calls with no logic of their own.
- src/tomo_pipeline/visualization.py and src/tomo_pipeline/cli.py are not part of this model. They are plotting and argument-parsing plumbing.
- The internals of phase correlation (FFT, sub-pixel upsampling) and of linear resampling with `mode="nearest"` are function parameters. Only the resampler's shape preservation is assumed.
- `threshold_otsu` is a function parameter. Its own behaviour on an empty volume is not modelled, so the "otsu" branch never fails.
- float32 casts, rounding, NaN samples and the test's 0.1 tolerance are not modelled. Samples are exact reals.
- numpy view semantics: the cropped result is a new value, not a view that aliases the input.
- Alignment.StackAligner.ApplyShifts: takes a 3-D volume only. For a non-3-D volume the source first runs the row-count check (a 0-d array already fails when its first extent is read); with a non-empty first axis it then fails in the resampler on a rank mismatch, and with an empty first axis it returns an empty array. None of this is modelled. A shift table is a 2-D array; a table of any other rank is not modelled.
- Alignment.StackAligner.ApplyShifts: the output is a volume of reals. `np.empty_like` would keep an integer input's dtype and truncate the resampled values.
- Alignment.StackAligner.EstimateShifts: requires `0 <= reference_idx < Z`. The source never checks it; Python's negative indexing and its IndexError for an out-of-range index are not modelled.
- Alignment.StackAligner.Align: requires `0 <= reference_idx < Z`, for the same reason.
- `Segmenter.model_path` is stored and never read, as in the source.
