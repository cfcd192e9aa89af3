/** The data the pipeline passes between its stages: numeric arrays, the
    (Z, Y, X) volumes among them, and the errors the stages raise. */
module Volumes {

  /** The exceptions raised by the core, as values. */
  datatype Error =
    | NotThreeDimensional          // an explicit `ndim != 3` check failed
    | CannotUnpackShape            // `z, y, x = volume.shape` on a shape that is not 3 long
    | ZeroSizeReduction            // numpy's min or max of an array with no elements
    | ShiftCountMismatch           // number of shift rows differs from number of slices
    | ShiftRowTooShort             // a shift row has no (dy, dx) pair to read
    | UnknownMethod(name: string)  // segmentation method other than "otsu" or "global"

  datatype Result<T> = Success(value: T) | Failure(error: Error)

  datatype Option<T> = None | Some(value: T)

  /** A rectangular plane of `ny` rows of `nx` samples each. */
  predicate IsPlane<T>(p: seq<seq<T>>, ny: nat, nx: nat) {
    |p| == ny && forall j :: 0 <= j < ny ==> |p[j]| == nx
  }

  /** `f` applied to every element of `s`. */
  function SeqMap<A, B>(s: seq<A>, f: A -> B): (r: seq<B>)
    ensures |r| == |s| && forall n :: 0 <= n < |s| ==> r[n] == f(s[n])
  {
    seq(|s|, n requires 0 <= n < |s| => f(s[n]))
  }

  /** An array of shape (nz, ny, nx). The extents are kept explicitly, as
      numpy keeps them, so a shape such as (0, 5, 7) is not confused with
      (0, 0, 0). */
  datatype Grid<T> = Grid(nz: nat, ny: nat, nx: nat, cells: seq<seq<seq<T>>>) {

    predicate Valid() {
      |cells| == nz && forall i :: 0 <= i < nz ==> IsPlane(cells[i], ny, nx)
    }

    predicate InBounds(i: int, j: int, k: int) {
      0 <= i < nz && 0 <= j < ny && 0 <= k < nx
    }

    /** The elements in C (row-major) order, as numpy's reductions see them. */
    function Values(): seq<T> {
      Flatten(cells)
    }

    /** Elementwise `f`, as numpy's vectorised expressions compute it. */
    function Map<U>(f: T -> U): (g: Grid<U>)
      requires Valid()
      ensures g.Valid() && g.nz == nz && g.ny == ny && g.nx == nx
      ensures forall i, j, k :: InBounds(i, j, k) ==> g.cells[i][j][k] == f(cells[i][j][k])
      ensures g.Values() == SeqMap(Values(), f)
    {
      var g := Grid(nz, ny, nx, SeqMap(cells, (p: seq<seq<T>>) => SeqMap(p, (row: seq<T>) => SeqMap(row, f))));
      FlattenMap(cells, f);
      g
    }
  }

  function FlattenPlane<T>(p: seq<seq<T>>): seq<T> {
    if p == [] then [] else p[0] + FlattenPlane(p[1..])
  }

  function Flatten<T>(c: seq<seq<seq<T>>>): seq<T> {
    if c == [] then [] else FlattenPlane(c[0]) + Flatten(c[1..])
  }

  lemma SeqMapConcat<A, B>(s: seq<A>, t: seq<A>, f: A -> B)
    ensures SeqMap(s + t, f) == SeqMap(s, f) + SeqMap(t, f)
  {
  }

  lemma {:induction false} FlattenPlaneMap<A, B>(p: seq<seq<A>>, f: A -> B)
    ensures FlattenPlane(SeqMap(p, (row: seq<A>) => SeqMap(row, f))) == SeqMap(FlattenPlane(p), f)
  {
    if p != [] {
      var g := (row: seq<A>) => SeqMap(row, f);
      assert SeqMap(p, g)[1..] == SeqMap(p[1..], g);
      FlattenPlaneMap(p[1..], f);
      SeqMapConcat(p[0], FlattenPlane(p[1..]), f);
    }
  }

  lemma {:induction false} FlattenMap<A, B>(c: seq<seq<seq<A>>>, f: A -> B)
    ensures Flatten(SeqMap(c, (p: seq<seq<A>>) => SeqMap(p, (row: seq<A>) => SeqMap(row, f))))
         == SeqMap(Flatten(c), f)
  {
    if c != [] {
      var g := (p: seq<seq<A>>) => SeqMap(p, (row: seq<A>) => SeqMap(row, f));
      assert SeqMap(c, g)[1..] == SeqMap(c[1..], g);
      FlattenMap(c[1..], f);
      FlattenPlaneMap(c[0], f);
      SeqMapConcat(FlattenPlane(c[0]), Flatten(c[1..]), f);
    }
  }

  /** Every element of a plane occurs among its flattened values ... */
  lemma {:induction false} FlattenPlaneHas<T>(p: seq<seq<T>>, j: nat, k: nat)
    requires j < |p| && k < |p[j]|
    ensures p[j][k] in FlattenPlane(p)
  {
    if j > 0 {
      FlattenPlaneHas(p[1..], j - 1, k);
    }
  }

  /** ... and every flattened value is some element of the plane. */
  lemma {:induction false} FlattenPlaneFrom<T>(p: seq<seq<T>>, x: T) returns (j: nat, k: nat)
    requires x in FlattenPlane(p)
    ensures j < |p| && k < |p[j]| && p[j][k] == x
  {
    if x in p[0] {
      j := 0;
      k :| 0 <= k < |p[0]| && p[0][k] == x;
    } else {
      var j', k' := FlattenPlaneFrom(p[1..], x);
      j, k := j' + 1, k';
    }
  }

  lemma {:induction false} FlattenHas<T>(c: seq<seq<seq<T>>>, i: nat, j: nat, k: nat)
    requires i < |c| && j < |c[i]| && k < |c[i][j]|
    ensures c[i][j][k] in Flatten(c)
  {
    if i == 0 {
      FlattenPlaneHas(c[0], j, k);
    } else {
      FlattenHas(c[1..], i - 1, j, k);
    }
  }

  lemma {:induction false} FlattenFrom<T>(c: seq<seq<seq<T>>>, x: T) returns (i: nat, j: nat, k: nat)
    requires x in Flatten(c)
    ensures i < |c| && j < |c[i]| && k < |c[i][j]| && c[i][j][k] == x
  {
    if x in FlattenPlane(c[0]) {
      i := 0;
      j, k := FlattenPlaneFrom(c[0], x);
    } else {
      var i', j', k' := FlattenFrom(c[1..], x);
      i, j, k := i' + 1, j', k';
    }
  }

  lemma {:induction false} FlattenPlaneEmpty<T>(p: seq<seq<T>>, ny: nat, nx: nat)
    requires IsPlane(p, ny, nx) && (ny == 0 || nx == 0)
    ensures FlattenPlane(p) == []
  {
    if p != [] {
      FlattenPlaneEmpty(p[1..], ny - 1, nx);
    }
  }

  lemma {:induction false} FlattenEmpty<T>(c: seq<seq<seq<T>>>, ny: nat, nx: nat)
    requires forall i :: 0 <= i < |c| ==> IsPlane(c[i], ny, nx)
    requires ny == 0 || nx == 0
    ensures Flatten(c) == []
  {
    if c != [] {
      FlattenPlaneEmpty(c[0], ny, nx);
      FlattenEmpty(c[1..], ny, nx);
    }
  }

  /** A volume has elements exactly when none of its three axes is empty. */
  lemma NoValuesIffEmptyAxis<T>(g: Grid<T>)
    requires g.Valid()
    ensures g.Values() == [] <==> g.nz == 0 || g.ny == 0 || g.nx == 0
  {
    if g.nz > 0 && g.ny > 0 && g.nx > 0 {
      FlattenHas(g.cells, 0, 0, 0);
    } else if g.ny == 0 || g.nx == 0 {
      FlattenEmpty(g.cells, g.ny, g.nx);
    }
  }

  /** Number of elements of an array of the given shape. */
  function Product(shape: seq<nat>): nat {
    if shape == [] then 1 else shape[0] * Product(shape[1..])
  }

  /** A numpy array of real samples: either three-dimensional, or of any
      other rank, whose elements are then kept flat in C order. */
  datatype NdArray =
    | Rank3(vol: Grid<real>)
    | OtherRank(shape: seq<nat>, data: seq<real>)
  {
    predicate Valid() {
      match this
      case Rank3(v) => v.Valid()
      case OtherRank(s, d) => |s| != 3 && |d| == Product(s)
    }

    function Shape(): seq<nat> {
      match this
      case Rank3(v) => [v.nz, v.ny, v.nx]
      case OtherRank(s, _) => s
    }

    function Values(): seq<real> {
      match this
      case Rank3(v) => v.Values()
      case OtherRank(_, d) => d
    }

    /** Elementwise `f`; the rank and the shape stay as they are. */
    function Map(f: real -> real): (b: NdArray)
      requires Valid()
      ensures b.Valid() && b.Rank3? == Rank3? && b.Shape() == Shape()
      ensures b.Values() == SeqMap(Values(), f)
      ensures Rank3? ==> forall i, j, k :: vol.InBounds(i, j, k) ==>
                b.vol.cells[i][j][k] == f(vol.cells[i][j][k])
    {
      match this
      case Rank3(v) => Rank3(v.Map(f))
      case OtherRank(s, d) => OtherRank(s, SeqMap(d, f))
    }
  }

  /** numpy's `min()` of a non-empty array: an element no larger than any other. */
  function Min(s: seq<real>): (m: real)
    requires s != []
    ensures m in s
    ensures forall x :: x in s ==> m <= x
  {
    if |s| == 1 then s[0]
    else
      var rest := Min(s[1..]);
      assert s == [s[0]] + s[1..];
      if s[0] <= rest then s[0] else rest
  }

  /** numpy's `max()` of a non-empty array: an element no smaller than any other. */
  function Max(s: seq<real>): (m: real)
    requires s != []
    ensures m in s
    ensures forall x :: x in s ==> x <= m
  {
    if |s| == 1 then s[0]
    else
      var rest := Max(s[1..]);
      assert s == [s[0]] + s[1..];
      if s[0] >= rest then s[0] else rest
  }

  /** The minimum is pinned down by being attained and being a lower bound. */
  lemma MinIs(s: seq<real>, m: real)
    requires m in s && forall x :: x in s ==> m <= x
    ensures Min(s) == m
  {
  }

  lemma MaxIs(s: seq<real>, m: real)
    requires m in s && forall x :: x in s ==> x <= m
    ensures Max(s) == m
  {
  }
}
