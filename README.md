# VOID docking core in Dafny

VOID docks a guest molecule into a crystal host. A sampler proposes candidate insertion
points. The docker filters those points by a spherical constraint around a host atom,
asks a docking strategy for candidate host–guest complexes at each remaining point,
scores every complex with a fitness function, and returns the complexes best first with
negative scores dropped.

This project models the two pieces of sequential logic in that pipeline:

- **The base docker** (`VOID/dockers/base.py`), in module `Dockers` (`docker.dfy`).
  - A docker is an immutable `Docker<C>` value, whose fields are set once by `__init__`.
  - Complexes are an opaque type `C`.
  - The host enters only through its Cartesian coordinates.
  - The sampler, the fitness function and the per-point strategy `dock_at_point` are function-typed fields.
  - `rank_complexes` is `Rank`: a stable descending insertion sort (`SortDesc`) followed by a non-negativity mask.
  - `apply_constraint` is `ApplyConstraint`.
  - `dock` is the method `Dock`, whose loop accumulates the complexes point by point. It is proved equal to the value `Docked`.
  - The base class's `dock_at_point` is `BaseDockAtPoint`, which always raises `NotImplementedError`.
- **The localized grid sampler** (`VOID/samplers/grid.py`), in module `Grid` (`grid.dfy`).
  - `np.linspace` is `Linspace`.
  - `np.meshgrid` with the default `'xy'` indexing is `Meshgrid`.
  - C-order `flatten()` is `Flatten`.
  - `np.vstack(...).T` is `Stack`.
  - `grid + coor` is `Translate`.
  - `get_points` is the method `GetPoints`. Its loop rebinds the accumulator `fullgrid`, which starts out unbound (`None`). It is proved equal to the value `Sampled`.

`Basics` (`basics.dfy`) holds the Python and numpy semantics the two files rely on:

- exceptions as a `Result`, which supports `:-` so that they propagate like a raise;
- `s[i]` with negative indices (`PyIndex`);
- `s[:m]` with a negative `m` (`SliceTo`);
- boolean masking (`Keep`).

`Pipeline` (`pipeline.dfy`) plugs the grid sampler into the docker.

The model follows the code as written, including three places where the code evidently does not do what it was meant to do:

- **Sampler with no centers.** An empty list of centers (the constructor's default) evidently should give an empty point set. The code raises, because `fullgrid` is never bound.
- **Several centers.** Several centers evidently should give one translated grid per center. The code raises at the second center.
- **Site limit.** The constraint evidently should truncate the kept points to the site limit. The code compares the limit with the length of the tuple returned by `np.where`, which is always 1.

The corrected variants are modelled separately (see Findings). The docker pipeline uses the behaviour as written.

Errors are values of `Basics.Error`:

| error | raised by | source |
|---|---|---|
| `IndexError` | an atom index outside `[-n, n)` | constraint: base.py:70; center: grid.py:32 |
| `ValueError` | a negative density passed to `np.linspace` | grid.py:27 |
| `UnboundLocalError` | no center, so `fullgrid` is never bound | grid.py:38 |
| `TypeError` | a second center, whose `np.vstack` call gets two positional arguments | grid.py:37 |
| `NotImplementedError` | the base docking primitive | base.py:93 |

## Model

| member | source | states |
|---|---|---|
| Basics.PyIndex | VOID/samplers/grid.py:32 | an atom index succeeds exactly on `[-n, n)`, negative indices counting from the end; otherwise IndexError |
| Basics.SliceTo | VOID/dockers/base.py:75 | `s[:m]` is a prefix of `s` of length `min(m, |s|)` for `m >= 0` and `max(0, |s|+m)` for `m < 0` |
| Basics.Keep | VOID/dockers/base.py:73-76 | masking returns only elements of the input that pass the mask, never more than the input |
| Dockers.NewDocker | VOID/dockers/base.py:18-26 | a docker built without keyword arguments keeps the given host, sampler, fitness and strategy, has no constraint, radius 5 and no site limit, and its filter returns every point unchanged |
| Dockers.BaseDockAtPoint | VOID/dockers/base.py:92-93 | the base class's docking primitive raises NotImplementedError on every call |
| Dockers.SortDesc | VOID/dockers/base.py:97 | the sort is a permutation of its input and is non-increasing by score |
| Dockers.Rank | VOID/dockers/base.py:95-99 | rank_complexes returns at most as many complexes as it was given, only given ones, each with fitness >= 0 |
| Dockers.RankOrdered | VOID/dockers/base.py:97-99 | the ranking is ordered by fitness, non-increasing, and every ranked complex has fitness >= 0 |
| Dockers.RankPermutation | VOID/dockers/base.py:96-99 | the ranking is a permutation of the sub-multiset of complexes with non-negative fitness |
| Dockers.RankKeepsAccepted | VOID/dockers/base.py:99 | a complex with fitness >= 0 is ranked exactly as many times as it was given |
| Dockers.RankStable | VOID/dockers/base.py:97-99 | for every score v, the ranked complexes scoring v appear in input order: all of them for v >= 0, none for v < 0 |
| Dockers.RankAllRejected | VOID/dockers/base.py:99 | if every complex scores below zero the ranking is empty |
| Dockers.ApplyConstraint | VOID/dockers/base.py:66-76 | an empty constraint returns the points unchanged; with one index it fails with IndexError exactly when the index is invalid |
| Dockers.ConstraintKeepsOrder | VOID/dockers/base.py:73-76 | the filtered points are an in-order subsequence of the input, truncated or not |
| Dockers.ConstraintInside | VOID/dockers/base.py:70-73 | every kept point has squared distance to the constraint atom strictly below `sphere*sphere` |
| Dockers.ConstraintKeepsAllInside | VOID/dockers/base.py:70-76 | unless the limit triggers, every input point inside the sphere is kept with its full multiplicity |
| Dockers.ConstraintTruncation | VOID/dockers/base.py:74-76 | no limit, or a limit >= 1, keeps every point in the sphere; a limit of 0 empties the result; a limit of -m drops the last m kept points |
| Dockers.LimitIgnored | VOID/dockers/base.py:74 | as written, a limit of 1 with two points inside the sphere returns both points |
| Dockers.ApplyConstraintIntended | VOID/dockers/base.py:66-76 | with the limit compared with the kept count, the filter fails exactly where apply_constraint does, and a limit m >= 0 returns at most m points |
| Dockers.IntendedLimitRespected | VOID/dockers/base.py:74-75 | with the limit compared with the kept count, a limit m >= 0 returns the first min(m, kept) points inside the sphere |
| Dockers.Gather | VOID/dockers/base.py:85-86 | the point loop succeeds exactly when dock_at_point succeeds at every point |
| Dockers.GatherAppend | VOID/dockers/base.py:85-86 | docking at `ps + qs` concatenates the complexes from `ps` and from `qs`, in point order; a failure in either is the result |
| Dockers.GatherOne | VOID/dockers/base.py:86 | one point contributes exactly what the strategy returns for it |
| Dockers.GatherFails | VOID/dockers/base.py:85-86 | the point loop fails with `e` iff some point fails with `e` and every earlier point succeeded |
| Dockers.Docked | VOID/dockers/base.py:78-90 | whatever dock returns is ordered best first and holds no complex with negative fitness |
| Dockers.Dock | VOID/dockers/base.py:78-90 | dock is rank_complexes of the concatenation, in filtered-point order, of dock_at_point over the constrained sampler points; it fails iff sampling, filtering or a point fails, with the first error |
| Dockers.DockAllRejected | VOID/dockers/base.py:88-90 | with a fitness that is negative everywhere, dock returns the empty list whenever it returns |
| Dockers.BaseDockerDock | VOID/dockers/base.py:92-93 | the base docker raises NotImplementedError iff at least one point survives the constraint; otherwise it returns [] |
| Grid.NewGridSampler | VOID/samplers/grid.py:11-14 | a sampler built with the defaults has no center and density 6, and get_points on it raises UnboundLocalError for every host |
| Grid.Linspace | VOID/samplers/grid.py:27 | `np.linspace` gives `num` values, the first being `start` and, for `num >= 2`, the last being `stop` |
| Grid.Axis | VOID/samplers/grid.py:27 | the sampler's axis has `density` values |
| Grid.AxisShape | VOID/samplers/grid.py:27 | the axis has `density` values, starts at `-lattice/2`, ends at `lattice/2` (density >= 2), with constant step `lattice/(density-1)` |
| Grid.AxisSymmetric | VOID/samplers/grid.py:27 | for density >= 2, `x[i] == -x[density-1-i]` |
| Grid.AxisSingle | VOID/samplers/grid.py:27 | with density 1 the axis is `[-lattice/2]`, which is not centred on zero |
| Grid.Meshgrid | VOID/samplers/grid.py:29 | 'xy' meshgrid of three axes gives three arrays of shape `(|y|, |x|, |z|)` with `X[i][j][k] == x[j]`, `Y[i][j][k] == y[i]`, `Z[i][j][k] == z[k]` |
| Grid.FlattenLength | VOID/samplers/grid.py:30 | C-order flattening of an (n1, n2, n3) array gives `n1*n2*n3` values |
| Grid.FlattenAt | VOID/samplers/grid.py:30 | C-order flattening puts element (i, j, k) of an (n1, n2, n3) array at `i*n2*n3 + j*n3 + k` |
| Grid.Stack | VOID/samplers/grid.py:30 | `np.vstack((xs, ys, zs)).T` has one row per value, row n being `(xs[n], ys[n], zs[n])` |
| Grid.BaseGrid | VOID/samplers/grid.py:29-30 | the base grid has exactly `density³` points |
| Grid.BaseGridAt | VOID/samplers/grid.py:29-30 | flattened index `i*d*d + j*d + k` holds `(x[j], x[i], x[k])`: meshgrid 'xy' indexing, C order |
| Grid.Translate | VOID/samplers/grid.py:34 | `grid + coor` keeps the number of points and shifts every point by `coor` |
| Grid.Sampled | VOID/samplers/grid.py:25-40 | get_points succeeds iff density >= 0 and there is exactly one center, with a valid atom index; it then returns `density³` points |
| Grid.GetPoints | VOID/samplers/grid.py:25-40 | the center loop computes exactly `Sampled`: the translated grid for one center, otherwise the exception raised |
| Grid.SampledAt | VOID/samplers/grid.py:31-34 | with one center c, point `i*d*d + j*d + k` is `(x[j], x[i], x[k])` plus the coordinates of atom c |
| Grid.NoCentersFails | VOID/samplers/grid.py:31-38 | with no center, get_points raises UnboundLocalError |
| Grid.ManyCentersFail | VOID/samplers/grid.py:36-37 | with two or more centers whose first two indices are valid, get_points raises TypeError |
| Grid.SampledDependsOnCenters | VOID/samplers/grid.py:32 | two hosts with equal center-atom lookups give the same result |
| Grid.StackedCopies | VOID/samplers/grid.py:31-37 | the corrected center loop succeeds exactly when every center is a valid atom index |
| Grid.SampledIntended | VOID/samplers/grid.py:25-37 | the corrected get_points succeeds iff density >= 0 and every center is valid, and then returns `|centers|` copies of the base grid |
| Grid.IntendedLayout | VOID/samplers/grid.py:31-37 | stacking the translated grids gives `|centers| * density³` points; block m holds the grid shifted by center m |
| Grid.IntendedNoCenters | VOID/samplers/grid.py:31-38 | the intended sampler returns no points for no center |
| Grid.IntendedAgrees | VOID/samplers/grid.py:31-37 | with exactly one center, the intended sampler and the code agree |
| Pipeline.GridSampling | VOID/dockers/base.py:83 | the grid sampler as dock calls it yields `density³` points, and only when it has exactly one center |
| Pipeline.GridDockNeedsOneCenter | VOID/dockers/base.py:83 | a grid-driven dock succeeds only with exactly one center; no center gives UnboundLocalError and two or more valid ones give TypeError |

`Grid.Flatten` carries no contract of its own: its length and the position of every element are stated by `Grid.FlattenLength` and `Grid.FlattenAt`.

## Left out

- `Docker.new_host`, `new_guest`, `create_new_complex` and `copy` (base.py:37-64) build objects of the external chemistry library (structures, molecules, complexes), which is not part of this model. So the guest molecule is not a field of `Docker`, and the independence of a copied docker is not modelled.
- `add_arguments` in both files is command-line glue: the default attempt count (50) and the default lattice width (5) are not modelled.
- `print` calls and the `np.savetxt("points.xyz", ...)` dump in `get_points` are console and file output. They are left out.
- The fitness implementations (threshold, target, union) are not part of this model. Fitness is any function from complexes to reals.
- The concrete docking strategies of docker subclasses are not part of this model. Docking is any function from a point and an attempt count to complexes or an error; the base one always fails.
- Samplers other than the localized grid are not part of this model. The docker takes any function from host coordinates to points or an error.
- Floating point is not modelled: coordinates, scores and the linspace step are exact reals. Rounding in `np.linspace` and in the distance test is therefore absent, and so are NaN scores, whose effect on `sorted` is undefined.
- Dockers.ApplyConstraint: requires at most one constraint index. With two or more indices, numpy broadcasting of `cart_coords[constraint]` against the points either raises or pairs rows elementwise; that is not modelled.
- Python's dynamic typing is not modelled: a constraint given as a numpy array, a non-integer density or site limit, and similar misconfigurations.

## Findings

| source | as written | input that shows it | evidently intended | confidence | as-written member | corrected member |
|---|---|---|---|---|---|---|
| VOID/dockers/base.py:74 | the site limit is compared with `len(filtered_inds)`, the length of the tuple returned by `np.where`, always 1 | `max_num_sites=1`, two points inside the sphere: both are returned | truncate to `max_num_sites` when more points are kept than that | not executed; high | Dockers.LimitIgnored | Dockers.IntendedLimitRespected |
| VOID/samplers/grid.py:31-38 | with no center, `fullgrid` is never bound and `len(fullgrid)` raises | `centers=[]`, the constructor's default (see `Grid.NewGridSampler`) | return an empty point set | not executed; high | Grid.NoCentersFails | Grid.IntendedNoCenters |
| VOID/samplers/grid.py:37 | `np.vstack(fullgrid, grid + coor)` passes two positional arguments and raises TypeError | `centers=[0, 1]` on a host with two atoms | `np.vstack((fullgrid, grid + coor))`, one translated grid per center | not executed; high | Grid.ManyCentersFail | Grid.IntendedLayout |

The corrected members (`Dockers.ApplyConstraintIntended`, `Grid.SampledIntended`) are proved alongside the as-written ones. `Dockers.Dock` and `Pipeline` compose the as-written operations, because that is the behaviour of the system being modelled.
