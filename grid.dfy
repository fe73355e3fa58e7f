/** The localized grid sampler (VOID/samplers/grid.py): a cube of `density`^3 points,
    `lattice` wide and centred on the origin, translated onto a center atom of the host. */
module Grid {
  import opened Basics

  /** Default number of grid values per axis. */
  const DefaultDensity: int := 6

  /** A configured sampler. `centers` are host atom indices; `density` may be any integer,
      as in the source, and a negative one is rejected by `np.linspace`. */
  datatype GridSampler = GridSampler(lattice: real, centers: seq<int>, density: int)

  /** A sampler built with the default centers (none) and density; with no center,
      get_points cannot return. */
  function NewGridSampler(lattice: real): (s: GridSampler)
    ensures s.lattice == lattice && s.centers == [] && s.density == DefaultDensity
    ensures forall coords :: Sampled(s, coords) == Err(UnboundLocalError)
  {
    GridSampler(lattice, [], DefaultDensity)
  }

  // ---------------------------------------------------------------------------
  // The axis: np.linspace(start, stop, num).
  // ---------------------------------------------------------------------------

  /** `num` evenly spaced values from `start` to `stop` inclusive; with one value it is
      `start` alone, and the last value of a longer axis is set to `stop` exactly. */
  function Linspace(start: real, stop: real, num: nat): (r: seq<real>)
    ensures |r| == num
    ensures num >= 1 ==> r[0] == start
    ensures num >= 2 ==> r[num - 1] == stop
  {
    if num <= 1 then seq(num, _ => start)
    else
      var step := (stop - start) / ((num - 1) as real);
      seq(num, i requires 0 <= i < num => if i == num - 1 then stop else start + (i as real) * step)
  }

  /** The axis of the sampler: `lattice` wide, centred on zero. */
  function Axis(s: GridSampler): (x: seq<real>)
    requires s.density >= 0
    ensures |x| == s.density
  {
    Linspace(-s.lattice / 2.0, s.lattice / 2.0, s.density)
  }

  /** The axis has `density` values, starts at `-lattice/2`, ends at `lattice/2` when it has
      two values or more, and consecutive values are `lattice/(density-1)` apart. */
  lemma AxisShape(s: GridSampler)
    requires s.density >= 0
    ensures |Axis(s)| == s.density
    ensures s.density >= 1 ==> Axis(s)[0] == -s.lattice / 2.0
    ensures s.density >= 2 ==> Axis(s)[s.density - 1] == s.lattice / 2.0
    ensures s.density >= 2 ==> forall i :: 0 <= i < s.density - 1 ==>
              Axis(s)[i + 1] - Axis(s)[i] == s.lattice / ((s.density - 1) as real)
  {
    var d := s.density;
    if d >= 2 {
      var start, step := -s.lattice / 2.0, s.lattice / ((d - 1) as real);
      assert (d - 1) as real * step == s.lattice;
      forall i | 0 <= i < d - 1 ensures Axis(s)[i + 1] - Axis(s)[i] == step {
        if i + 1 == d - 1 {
          assert Axis(s)[i + 1] == s.lattice / 2.0;
          assert Axis(s)[i] == start + (i as real) * step;
          assert (i as real) * step + step == s.lattice;
        } else {
          assert Axis(s)[i + 1] == start + ((i + 1) as real) * step;
        }
      }
    }
  }

  /** With two values or more the axis is symmetric about zero. */
  lemma AxisSymmetric(s: GridSampler, i: int)
    requires s.density >= 2 && 0 <= i < s.density
    ensures Axis(s)[i] == -Axis(s)[s.density - 1 - i]
  {
    var d := s.density;
    var start, step := -s.lattice / 2.0, s.lattice / ((d - 1) as real);
    assert (d - 1) as real * step == s.lattice;
    var i' := d - 1 - i;
    if i == d - 1 {
    } else if i' == d - 1 {
    } else {
      assert Axis(s)[i] == start + (i as real) * step;
      assert Axis(s)[i'] == start + (i' as real) * step;
      assert (i as real) * step + (i' as real) * step == s.lattice;
    }
  }

  /** A one-value axis is `[-lattice/2]`: it is not centred on zero unless `lattice` is 0. */
  lemma AxisSingle(s: GridSampler)
    requires s.density == 1
    ensures Axis(s) == [-s.lattice / 2.0]
  {
  }

  // ---------------------------------------------------------------------------
  // The base grid: X, Y, Z = np.meshgrid(x, x, x) (indexing 'xy'), flattened in C order
  // and stacked into rows (x, y, z).
  // ---------------------------------------------------------------------------

  /** A three-dimensional array as nested sequences. */
  type Cube = seq<seq<seq<real>>>

  /** `np.meshgrid(xs, ys, zs)` with the default 'xy' indexing: three arrays of shape
      (|ys|, |xs|, |zs|), where X varies along the second axis and Y along the first. */
  function Meshgrid(xs: seq<real>, ys: seq<real>, zs: seq<real>): (m: (Cube, Cube, Cube))
    ensures IsBox(m.0, |ys|, |xs|, |zs|) && IsBox(m.1, |ys|, |xs|, |zs|) && IsBox(m.2, |ys|, |xs|, |zs|)
    ensures forall i, j, k :: 0 <= i < |ys| && 0 <= j < |xs| && 0 <= k < |zs| ==>
              m.0[i][j][k] == xs[j] && m.1[i][j][k] == ys[i] && m.2[i][j][k] == zs[k]
  {
    (seq(|ys|, i => seq(|xs|, j requires 0 <= j < |xs| => seq(|zs|, k => xs[j]))),
     seq(|ys|, i requires 0 <= i < |ys| => seq(|xs|, j => seq(|zs|, k => ys[i]))),
     seq(|ys|, i => seq(|xs|, j => seq(|zs|, k requires 0 <= k < |zs| => zs[k]))))
  }

  /** `p` has shape (n2, n3). */
  ghost predicate IsPlane(p: seq<seq<real>>, n2: nat, n3: nat) {
    |p| == n2 && forall j :: 0 <= j < n2 ==> |p[j]| == n3
  }

  /** `a` has shape (n1, n2, n3). */
  ghost predicate IsBox(a: Cube, n1: nat, n2: nat, n3: nat) {
    |a| == n1 && forall i :: 0 <= i < n1 ==> IsPlane(a[i], n2, n3)
  }

  /** The concatenation of a sequence of rows, row after row. */
  function Concat<T>(rows: seq<seq<T>>): seq<T> {
    if rows == [] then [] else rows[0] + Concat(rows[1..])
  }

  /** C-order flattening (`ndarray.flatten()`) of a three-dimensional array: each plane
      flattened row by row, the planes one after another; FlattenLength and FlattenAt
      give its length and each element's position. */
  function Flatten(a: Cube): seq<real> {
    Concat(Planes(a))
  }

  /** Each plane of `a` flattened row by row. */
  function Planes(a: Cube): (planes: seq<seq<real>>)
    ensures |planes| == |a|
    ensures forall i :: 0 <= i < |a| ==> planes[i] == Concat(a[i])
  {
    seq(|a|, i requires 0 <= i < |a| => Concat(a[i]))
  }

  /** `(a - 1) * m + m == a * m`, kept apart so that the flattening proofs stay linear. */
  lemma MulPred(a: int, m: int)
    ensures (a - 1) * m + m == a * m
  {
  }

  /** A row-major offset stays inside its block: `i*m + r < n*m` when `i < n` and `r < m`. */
  lemma OffsetBound(i: nat, n: nat, r: nat, m: nat)
    requires i < n && r < m
    ensures 0 <= i * m + r < n * m
  {
    MulMonotone(i + 1, n, m);
    MulPred(i + 1, m);
  }

  /** `a*m <= b*m` for `a <= b`, by induction on `b`. */
  lemma {:induction false} MulMonotone(a: nat, b: nat, m: nat)
    requires a <= b
    ensures 0 <= a * m <= b * m
    decreases b
  {
    if a < b {
      MulMonotone(a, b - 1, m);
      MulPred(b, m);
    }
  }

  lemma {:induction false} ConcatLength<T>(rows: seq<seq<T>>, m: nat)
    requires forall i :: 0 <= i < |rows| ==> |rows[i]| == m
    ensures |Concat(rows)| == |rows| * m
  {
    if rows != [] {
      ConcatLength(rows[1..], m);
      MulPred(|rows|, m);
    }
  }

  /** In a concatenation of rows of length `m`, offset `r` of row `i` is at `i*m + r`. */
  lemma {:induction false} ConcatAt<T>(rows: seq<seq<T>>, m: nat, i: nat, r: nat)
    requires forall i :: 0 <= i < |rows| ==> |rows[i]| == m
    requires i < |rows| && r < m
    ensures i * m + r < |Concat(rows)| && Concat(rows)[i * m + r] == rows[i][r]
  {
    ConcatLength(rows, m);
    OffsetBound(i, |rows|, r, m);
    if i > 0 {
      ConcatAt(rows[1..], m, i - 1, r);
      MulPred(i, m);
    }
  }

  lemma FlattenLength(a: Cube, n1: nat, n2: nat, n3: nat)
    requires IsBox(a, n1, n2, n3)
    ensures |Flatten(a)| == n1 * (n2 * n3)
  {
    var planes := Planes(a);
    forall i | 0 <= i < n1 ensures |planes[i]| == n2 * n3 {
      ConcatLength(a[i], n3);
    }
    ConcatLength(planes, n2 * n3);
  }

  /** Element (i, j, k) of an (n1, n2, n3) array sits at `i*n2*n3 + j*n3 + k` once flattened. */
  lemma FlattenAt(a: Cube, n1: nat, n2: nat, n3: nat, i: nat, j: nat, k: nat)
    requires IsBox(a, n1, n2, n3) && i < n1 && j < n2 && k < n3
    ensures i * (n2 * n3) + j * n3 + k < |Flatten(a)|
    ensures Flatten(a)[i * (n2 * n3) + j * n3 + k] == a[i][j][k]
  {
    var planes, m := Planes(a), n2 * n3;
    forall i | 0 <= i < n1 ensures |planes[i]| == m {
      ConcatLength(a[i], n3);
    }
    var r := j * n3 + k;
    OffsetBound(j, n2, k, n3);
    ConcatAt(a[i], n3, j, k);
    ConcatAt(planes, m, i, r);
  }

  /** `np.vstack((xs, ys, zs)).T`: the rows (xs[n], ys[n], zs[n]). */
  function Stack(xs: seq<real>, ys: seq<real>, zs: seq<real>): (r: seq<Point>)
    requires |xs| == |ys| == |zs|
    ensures |r| == |xs|
    ensures forall n :: 0 <= n < |xs| ==> r[n] == Point(xs[n], ys[n], zs[n])
  {
    seq(|xs|, n requires 0 <= n < |xs| => Point(xs[n], ys[n], zs[n]))
  }

  /** The grid centred on the origin, one row per point: exactly `d^3` points. */
  function BaseGrid(x: seq<real>): (g: seq<Point>)
    ensures |g| == |x| * |x| * |x|
  {
    var mesh := Meshgrid(x, x, x);
    FlattenLength(mesh.0, |x|, |x|, |x|);
    FlattenLength(mesh.1, |x|, |x|, |x|);
    FlattenLength(mesh.2, |x|, |x|, |x|);
    MulAssoc(|x|, |x|);
    Stack(Flatten(mesh.0), Flatten(mesh.1), Flatten(mesh.2))
  }

  /** Flattened index `i*d*d + j*d + k` of the base grid holds
      `(x[j], x[i], x[k])`: the first meshgrid axis varies slowest and carries Y. */
  lemma BaseGridAt(x: seq<real>, i: nat, j: nat, k: nat)
    requires i < |x| && j < |x| && k < |x|
    ensures 0 <= i * |x| * |x| + j * |x| + k < |BaseGrid(x)|
    ensures BaseGrid(x)[i * |x| * |x| + j * |x| + k] == Point(x[j], x[i], x[k])
  {
    var n, n' := i * (|x| * |x|) + j * |x| + k, i * |x| * |x| + j * |x| + k;
    assert n' == n by {
      MulAssoc(i, |x|);
    }
    MeshgridAt(x, i, j, k);
  }

  lemma MeshgridAt(x: seq<real>, i: nat, j: nat, k: nat)
    requires i < |x| && j < |x| && k < |x|
    ensures 0 <= i * (|x| * |x|) + j * |x| + k < |BaseGrid(x)|
    ensures BaseGrid(x)[i * (|x| * |x|) + j * |x| + k] == Point(x[j], x[i], x[k])
  {
    var mesh := Meshgrid(x, x, x);
    var n := i * (|x| * |x|) + j * |x| + k;
    FlatMeshAt(x, i, j, k);
  }

  lemma FlatMeshAt(x: seq<real>, i: nat, j: nat, k: nat)
    requires i < |x| && j < |x| && k < |x|
    ensures var mesh, n := Meshgrid(x, x, x), i * (|x| * |x|) + j * |x| + k;
            && |Flatten(mesh.0)| == |Flatten(mesh.1)| == |Flatten(mesh.2)|
            && 0 <= n < |Flatten(mesh.0)|
            && Flatten(mesh.0)[n] == x[j] && Flatten(mesh.1)[n] == x[i] && Flatten(mesh.2)[n] == x[k]
  {
    var d := |x|;
    var mesh := Meshgrid(x, x, x);
    MulNonNegative(d, d);
    MulNonNegative(i, d * d);
    MulNonNegative(j, d);
    FlattenLength(mesh.0, d, d, d);
    FlattenLength(mesh.1, d, d, d);
    FlattenLength(mesh.2, d, d, d);
    FlattenAt(mesh.0, d, d, d, i, j, k);
    FlattenAt(mesh.1, d, d, d, i, j, k);
    FlattenAt(mesh.2, d, d, d, i, j, k);
  }

  lemma MulNonNegative(a: nat, b: nat)
    ensures a * b >= 0
  {
  }

  lemma MulAssoc(i: int, d: int)
    ensures i * (d * d) == i * d * d
  {
  }

  /** `grid + coor`: every row shifted by `c`. */
  function Translate(grid: seq<Point>, c: Point): (r: seq<Point>)
    ensures |r| == |grid|
    ensures forall n :: 0 <= n < |grid| ==> r[n] == Add(grid[n], c)
  {
    seq(|grid|, n requires 0 <= n < |grid| => Add(grid[n], c))
  }

  lemma TranslatedGridAt(x: seq<real>, c: Point, i: nat, j: nat, k: nat)
    requires i < |x| && j < |x| && k < |x|
    ensures var n := i * |x| * |x| + j * |x| + k;
            0 <= n < |Translate(BaseGrid(x), c)| && Translate(BaseGrid(x), c)[n] == Add(Point(x[j], x[i], x[k]), c)
  {
    BaseGridAt(x, i, j, k);
  }

  // ---------------------------------------------------------------------------
  // get_points
  // ---------------------------------------------------------------------------

  /** What get_points returns or raises, for a host with Cartesian coordinates `coords`:
      the linspace check, then the center loop, in which the first center binds the
      result, a second one makes `np.vstack` reject its extra positional argument, and no
      center at all leaves the result unbound. */
  function Sampled(s: GridSampler, coords: seq<Point>): (r: Result<seq<Point>>)
    ensures r.Ok? <==> s.density >= 0 && |s.centers| == 1 && -|coords| <= s.centers[0] < |coords|
    ensures r.Ok? ==> |r.value| == s.density * s.density * s.density
  {
    if s.density < 0 then Err(ValueError)
    else if |s.centers| == 0 then Err(UnboundLocalError)
    else
      var first :- PyIndex(coords, s.centers[0]);
      if |s.centers| == 1 then Ok(Translate(BaseGrid(Axis(s)), first))
      else if PyIndex(coords, s.centers[1]).Err? then Err(IndexError)
      else Err(TypeError)
  }

  /** LocalizedGridSampler.get_points: the center loop rebinds `fullgrid`, which is
      unbound (None) until the first center has been seen. */
  method GetPoints(s: GridSampler, coords: seq<Point>) returns (r: Result<seq<Point>>)
    ensures r == Sampled(s, coords)
  {
    if s.density < 0 {
      return Err(ValueError);
    }
    var x := Axis(s);
    var grid := BaseGrid(x);
    var fullgrid: Option<seq<Point>> := None;
    for n := 0 to |s.centers|
      invariant n <= 1
      invariant fullgrid.None? <==> n == 0
      invariant n == 1 ==> PyIndex(coords, s.centers[0]).Ok? &&
                           fullgrid == Some(Translate(grid, PyIndex(coords, s.centers[0]).value))
    {
      var coor :- PyIndex(coords, s.centers[n]);
      if fullgrid.None? {
        fullgrid := Some(Translate(grid, coor));
      } else {
        return Err(TypeError);
      }
    }
    if fullgrid.None? {
      return Err(UnboundLocalError);
    }
    r := Ok(fullgrid.value);
  }

  /** With one center `c`, point `i*d*d + j*d + k` of the result is base-grid point
      `(x[j], x[i], x[k])` shifted by the coordinates of atom `c`. */
  lemma SampledAt(s: GridSampler, coords: seq<Point>, i: nat, j: nat, k: nat)
    requires Sampled(s, coords).Ok?
    requires i < s.density && j < s.density && k < s.density
    ensures var x := Axis(s);
            var pts := Sampled(s, coords).value;
            && 0 <= i * |x| * |x| + j * |x| + k < |pts|
            && pts[i * |x| * |x| + j * |x| + k] == Add(Point(x[j], x[i], x[k]), PyIndex(coords, s.centers[0]).value)
  {
    var c := PyIndex(coords, s.centers[0]).value;
    var x := Axis(s);
    var pts := Sampled(s, coords).value;
    assert pts == Translate(BaseGrid(x), c);
    TranslatedGridAt(x, c, i, j, k);
    assert |x| == s.density;
  }

  /** With no center, get_points fails: `fullgrid` is read but was never bound. */
  lemma NoCentersFails(s: GridSampler, coords: seq<Point>)
    requires s.density >= 0 && s.centers == []
    ensures Sampled(s, coords) == Err(UnboundLocalError)
  {
  }

  /** With two centers or more (and valid first two indices), get_points fails at the second
      center, whose `np.vstack(fullgrid, ...)` call passes two positional arguments. */
  lemma ManyCentersFail(s: GridSampler, coords: seq<Point>)
    requires s.density >= 0 && |s.centers| >= 2
    requires PyIndex(coords, s.centers[0]).Ok? && PyIndex(coords, s.centers[1]).Ok?
    ensures Sampled(s, coords) == Err(TypeError)
  {
  }

  /** The host enters only through the coordinates of the center atoms. */
  lemma SampledDependsOnCenters(s: GridSampler, coords1: seq<Point>, coords2: seq<Point>)
    requires forall n :: 0 <= n < |s.centers| ==> PyIndex(coords1, s.centers[n]) == PyIndex(coords2, s.centers[n])
    ensures Sampled(s, coords1) == Sampled(s, coords2)
  {
    if s.density >= 0 && |s.centers| >= 1 {
      assert PyIndex(coords1, s.centers[0]) == PyIndex(coords2, s.centers[0]);
      if |s.centers| >= 2 {
        assert PyIndex(coords1, s.centers[1]) == PyIndex(coords2, s.centers[1]);
      }
    }
  }

  // ---------------------------------------------------------------------------
  // The evidently intended center loop: an empty point set for no center, and the
  // translated grids stacked one after another for several centers.
  // ---------------------------------------------------------------------------

  /** The translated copies of `grid`, one per center, in center order. */
  function StackedCopies(grid: seq<Point>, centers: seq<int>, coords: seq<Point>): (r: Result<seq<Point>>)
    ensures r.Ok? <==> forall m :: 0 <= m < |centers| ==> PyIndex(coords, centers[m]).Ok?
  {
    if centers == [] then Ok([])
    else
      var c :- PyIndex(coords, centers[0]);
      var rest :- StackedCopies(grid, centers[1..], coords);
      Ok(Translate(grid, c) + rest)
  }

  /** get_points with the accumulator initialised to empty and `np.vstack((fullgrid, ...))`. */
  function SampledIntended(s: GridSampler, coords: seq<Point>): (r: Result<seq<Point>>)
    ensures r.Ok? <==> s.density >= 0 && forall m :: 0 <= m < |s.centers| ==> -|coords| <= s.centers[m] < |coords|
    ensures r.Ok? ==> s.density >= 0 && |r.value| == |s.centers| * |BaseGrid(Axis(s))|
  {
    if s.density < 0 then Err(ValueError)
    else
      var grid := BaseGrid(Axis(s));
      var r := StackedCopies(grid, s.centers, coords);
      if r.Ok? then StackedCopiesLength(grid, s.centers, coords); r else r
  }

  /** The stacked copies hold `|centers| * |grid|` points; point `m*|grid| + n` is grid
      point n shifted by center m. */
  lemma {:induction false} StackedCopiesLayout(grid: seq<Point>, centers: seq<int>, coords: seq<Point>,
                                               m: nat, n: nat)
    requires StackedCopies(grid, centers, coords).Ok?
    requires m < |centers| && n < |grid|
    ensures |StackedCopies(grid, centers, coords).value| == |centers| * |grid|
    ensures m * |grid| + n < |centers| * |grid|
    ensures StackedCopies(grid, centers, coords).value[m * |grid| + n]
         == Add(grid[n], PyIndex(coords, centers[m]).value)
  {
    StackedCopiesLength(grid, centers, coords);
    OffsetBound(m, |centers|, n, |grid|);
    if m > 0 {
      StackedCopiesLayout(grid, centers[1..], coords, m - 1, n);
      MulPred(m, |grid|);
      assert centers[1..][m - 1] == centers[m];
    }
  }

  lemma {:induction false} StackedCopiesLength(grid: seq<Point>, centers: seq<int>, coords: seq<Point>)
    requires StackedCopies(grid, centers, coords).Ok?
    ensures |StackedCopies(grid, centers, coords).value| == |centers| * |grid|
  {
    if centers != [] {
      StackedCopiesLength(grid, centers[1..], coords);
      MulPred(|centers|, |grid|);
    }
  }

  /** The intended sampler returns one translated copy of the base grid per center (none
      for no center): `|centers| * |grid|` points, point `m*|grid| + i*d*d + j*d + k` being
      `(x[j], x[i], x[k])` shifted by center m. */
  lemma IntendedLayout(s: GridSampler, coords: seq<Point>, m: nat, i: nat, j: nat, k: nat)
    requires SampledIntended(s, coords).Ok?
    requires m < |s.centers| && i < s.density && j < s.density && k < s.density
    ensures var x := Axis(s);
            var size, pts := |BaseGrid(x)|, SampledIntended(s, coords).value;
            && |pts| == |s.centers| * size
            && 0 <= m * size + (i * |x| * |x| + j * |x| + k) < |pts|
            && pts[m * size + (i * |x| * |x| + j * |x| + k)]
               == Add(Point(x[j], x[i], x[k]), PyIndex(coords, s.centers[m]).value)
  {
    var x := Axis(s);
    BaseGridAt(x, i, j, k);
    IntendedCopyAt(s, coords, m, i * |x| * |x| + j * |x| + k);
  }

  lemma IntendedCopyAt(s: GridSampler, coords: seq<Point>, m: nat, n: nat)
    requires SampledIntended(s, coords).Ok?
    requires m < |s.centers| && n < |BaseGrid(Axis(s))|
    ensures var grid, pts := BaseGrid(Axis(s)), SampledIntended(s, coords).value;
            && |pts| == |s.centers| * |grid|
            && 0 <= m * |grid| + n < |pts|
            && pts[m * |grid| + n] == Add(grid[n], PyIndex(coords, s.centers[m]).value)
  {
    var grid := BaseGrid(Axis(s));
    var copies := StackedCopies(grid, s.centers, coords);
    assert SampledIntended(s, coords) == copies;
    StackedCopiesLayout(grid, s.centers, coords, m, n);
    MulNonNegative(m, |grid|);
  }

  /** No center yields no points under the intended reading. */
  lemma IntendedNoCenters(s: GridSampler, coords: seq<Point>)
    requires s.density >= 0 && s.centers == []
    ensures SampledIntended(s, coords) == Ok([])
  {
  }

  /** Where the source works (exactly one center) the intended sampler agrees with it. */
  lemma IntendedAgrees(s: GridSampler, coords: seq<Point>)
    requires |s.centers| == 1
    ensures SampledIntended(s, coords) == Sampled(s, coords)
  {
    if s.density >= 0 && PyIndex(coords, s.centers[0]).Ok? {
      var grid := BaseGrid(Axis(s));
      var g := Translate(grid, PyIndex(coords, s.centers[0]).value);
      assert s.centers[1..] == [];
      assert StackedCopies(grid, s.centers[1..], coords) == Ok([]);
      assert g + [] == g;
    }
  }
}
