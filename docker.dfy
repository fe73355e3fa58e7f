/** The base docker (VOID/dockers/base.py): filter the sampled points by a spherical
    constraint, dock the guest at every remaining point, and rank the complexes found
    by fitness. Complexes are an opaque type parameter `C`; the fitness function, the
    sampler and the per-point docking strategy are supplied as functions. */
module Dockers {
  import opened Basics

  /** Default radius of the constraint sphere. */
  const DefaultSphere: real := 5.0

  /** `np.where` on a one-dimensional mask returns a tuple holding one index array, so
      `len(filtered_inds)` is always this value, whatever the number of kept points. */
  const WhereTupleLength: int := 1

  /** A configured docker. The fields are set once, by the constructor, and never updated.
      The host enters only through its Cartesian coordinates; the guest molecule is not
      used by the modelled operations. */
  datatype Docker<!C> = Docker(
    hostCoords: seq<Point>,                      // host.cart_coords
    sampler: seq<Point> -> Result<seq<Point>>,   // sampler.get_points(host)
    fitness: C -> real,                          // fitness(complex)
    dockAtPoint: (Point, int) -> Result<seq<C>>, // dock_at_point(point, attempts)
    constraint: seq<int>,                        // host atom indices
    sphere: real,                                // constraint radius
    maxNumOfSites: Option<int>)                  // optional site limit

  /** A docker built without keyword arguments: no constraint, radius 5, no site limit;
      such a docker filters nothing. */
  function NewDocker<C>(hostCoords: seq<Point>, sampler: seq<Point> -> Result<seq<Point>>,
                        fitness: C -> real, dockAtPoint: (Point, int) -> Result<seq<C>>): (d: Docker<C>)
    ensures d.hostCoords == hostCoords && d.sampler == sampler && d.fitness == fitness
    ensures d.dockAtPoint == dockAtPoint
    ensures d.constraint == [] && d.sphere == DefaultSphere && d.maxNumOfSites.None?
    ensures forall points :: ApplyConstraint(d, points) == Ok(points)
  {
    Docker(hostCoords, sampler, fitness, dockAtPoint, [], DefaultSphere, None)
  }

  /** The docking primitive of the base class, which every call rejects. */
  function BaseDockAtPoint<C>(point: Point, attempts: int): (r: Result<seq<C>>)
    ensures r.Err? && r.error == NotImplementedError
  {
    Err(NotImplementedError)
  }

  // ---------------------------------------------------------------------------
  // Ranking: sorted(zip(complexes, scores), key=score, reverse=True), then keep
  // the complexes whose score is non-negative.
  // ---------------------------------------------------------------------------

  /** Scores never increase along `s`. */
  ghost predicate SortedDesc<C>(s: seq<C>, score: C -> real) {
    forall i, j :: 0 <= i < j < |s| ==> score(s[i]) >= score(s[j])
  }

  /** The mask of complexes that are not rejected. */
  function NonNegative<C>(score: C -> real): C -> bool {
    c => score(c) >= 0.0
  }

  /** The mask of complexes with score exactly `v`. */
  function HasScore<C>(score: C -> real, v: real): C -> bool {
    c => score(c) == v
  }

  /** Inserts `c` into `s` in front of the first element whose score is not above
      that of `c`: `c` is taken to precede everything in `s` in the original order. */
  function Insert<C>(c: C, s: seq<C>, score: C -> real): (r: seq<C>)
    ensures multiset(r) == multiset(s) + multiset{c}
  {
    if s == [] || score(s[0]) <= score(c) then [c] + s
    else
      assert s == [s[0]] + s[1..];
      [s[0]] + Insert(c, s[1..], score)
  }

  lemma {:induction false} InsertSorted<C>(c: C, s: seq<C>, score: C -> real)
    requires SortedDesc(s, score)
    ensures SortedDesc(Insert(c, s, score), score)
  {
    if s == [] {
    } else if score(s[0]) <= score(c) {
      ConsSorted(c, s, score);
    } else {
      var rest := Insert(c, s[1..], score);
      InsertSorted(c, s[1..], score);
      forall k | 0 <= k < |rest| ensures score(rest[k]) <= score(s[0]) {
        var x := rest[k];
        assert x in multiset(rest);
        if x != c {
          assert x in multiset(s[1..]);
          var j :| 0 <= j < |s[1..]| && s[1..][j] == x;
          assert s[1 + j] == x;
        }
      }
      ConsSorted(s[0], rest, score);
    }
  }

  /** Putting in front of a sorted sequence an element scored at least as high as all of it
      keeps the sequence sorted. */
  lemma ConsSorted<C>(c: C, s: seq<C>, score: C -> real)
    requires SortedDesc(s, score)
    requires forall k :: 0 <= k < |s| ==> score(s[k]) <= score(c)
    ensures SortedDesc([c] + s, score)
  {
    var r := [c] + s;
    forall i, j | 0 <= i < j < |r| ensures score(r[i]) >= score(r[j]) {
      if i == 0 {
        assert r[j] == s[j - 1];
      } else {
        assert r[i] == s[i - 1] && r[j] == s[j - 1];
      }
    }
  }

  /** Python's stable sort with `reverse=True`, by insertion from the back. */
  function SortDesc<C>(s: seq<C>, score: C -> real): (r: seq<C>)
    ensures multiset(r) == multiset(s)
    ensures SortedDesc(r, score)
  {
    if s == [] then []
    else
      assert s == [s[0]] + s[1..];
      var rest := SortDesc(s[1..], score);
      InsertSorted(s[0], rest, score);
      Insert(s[0], rest, score)
  }

  /** Docker.rank_complexes: only complexes that were given, and only accepted ones. */
  function Rank<C>(complexes: seq<C>, fitness: C -> real): (r: seq<C>)
    ensures |r| <= |complexes|
    ensures forall c :: c in r ==> c in complexes && fitness(c) >= 0.0
  {
    var sorted := SortDesc(complexes, fitness);
    assert forall c :: c in sorted ==> c in complexes by {
      forall c | c in sorted ensures c in complexes {
        assert c in multiset(sorted);
      }
    }
    assert |sorted| == |multiset(sorted)| == |complexes|;
    Keep(sorted, NonNegative(fitness))
  }

  lemma {:induction false} KeepSorted<C>(s: seq<C>, score: C -> real, p: C -> bool)
    requires SortedDesc(s, score)
    ensures SortedDesc(Keep(s, p), score)
  {
    if s != [] {
      KeepSorted(s[1..], score, p);
      var rest := Keep(s[1..], p);
      forall x | x in rest ensures score(s[0]) >= score(x) {
        var j :| 0 <= j < |s[1..]| && s[1..][j] == x;
        assert s[1 + j] == x;
      }
    }
  }

  /** The ranking is ordered by fitness, best first, and holds no rejected complex. */
  lemma RankOrdered<C>(complexes: seq<C>, fitness: C -> real)
    ensures SortedDesc(Rank(complexes, fitness), fitness)
    ensures forall c :: c in Rank(complexes, fitness) ==> fitness(c) >= 0.0
  {
    KeepSorted(SortDesc(complexes, fitness), fitness, NonNegative(fitness));
  }

  /** The ranking is a permutation of the non-negatively scored sub-multiset of the input:
      every such complex appears, as often as in the input. */
  lemma RankPermutation<C>(complexes: seq<C>, fitness: C -> real)
    ensures multiset(Rank(complexes, fitness)) == multiset(Keep(complexes, NonNegative(fitness)))
  {
    var p := NonNegative(fitness);
    var sorted := SortDesc(complexes, fitness);
    var ranked, accepted := Keep(sorted, p), Keep(complexes, p);
    forall x ensures multiset(ranked)[x] == multiset(accepted)[x] {
      KeepCount(sorted, p, x);
      KeepCount(complexes, p, x);
    }
    SameCounts(ranked, accepted);
  }

  lemma SameCounts<C>(a: seq<C>, b: seq<C>)
    requires forall x :: multiset(a)[x] == multiset(b)[x]
    ensures multiset(a) == multiset(b)
  {
  }

  /** Every complex with a non-negative fitness is ranked, as often as it was given. */
  lemma RankKeepsAccepted<C>(complexes: seq<C>, fitness: C -> real, c: C)
    requires fitness(c) >= 0.0
    ensures multiset(Rank(complexes, fitness))[c] == multiset(complexes)[c]
  {
    KeepCount(SortDesc(complexes, fitness), NonNegative(fitness), c);
  }

  lemma {:induction false} InsertStable<C>(c: C, s: seq<C>, score: C -> real, v: real)
    ensures Keep(Insert(c, s, score), HasScore(score, v))
         == Keep([c], HasScore(score, v)) + Keep(s, HasScore(score, v))
  {
    var p := HasScore(score, v);
    if s == [] || score(s[0]) <= score(c) {
      KeepAppend([c], s, p);
    } else {
      var rest := Insert(c, s[1..], score);
      InsertStable(c, s[1..], score, v);
      KeepAppend([s[0]], rest, p);
      assert s == [s[0]] + s[1..];
      KeepAppend([s[0]], s[1..], p);
      KeepSwap(s[0], c, p);
    }
  }

  /** Two singletons of which at most one passes the mask can be masked in either order. */
  lemma KeepSwap<C>(a: C, b: C, p: C -> bool)
    requires !(p(a) && p(b))
    ensures Keep([a], p) + Keep([b], p) == Keep([b], p) + Keep([a], p)
  {
    KeepSingleton(a, p);
    KeepSingleton(b, p);
  }

  lemma {:induction false} SortStable<C>(s: seq<C>, score: C -> real, v: real)
    ensures Keep(SortDesc(s, score), HasScore(score, v)) == Keep(s, HasScore(score, v))
  {
    if s != [] {
      SortStable(s[1..], score, v);
      InsertStable(s[0], SortDesc(s[1..], score), score, v);
      assert s == [s[0]] + s[1..];
      KeepAppend([s[0]], s[1..], HasScore(score, v));
    }
  }

  /** Ties keep their input order: the complexes of any one fitness value appear in the
      ranking exactly as they appear in the input (none, for a negative value). */
  lemma {:induction false} RankStable<C>(complexes: seq<C>, fitness: C -> real, v: real)
    ensures Keep(Rank(complexes, fitness), HasScore(fitness, v))
         == if v >= 0.0 then Keep(complexes, HasScore(fitness, v)) else []
  {
    var sorted := SortDesc(complexes, fitness);
    SortStable(complexes, fitness, v);
    KeepOfKeep(sorted, NonNegative(fitness), HasScore(fitness, v), v >= 0.0);
  }

  lemma {:induction false} KeepOfKeep<C>(s: seq<C>, p: C -> bool, q: C -> bool, qInP: bool)
    requires forall x :: q(x) ==> (p(x) <==> qInP)
    ensures Keep(Keep(s, p), q) == if qInP then Keep(s, q) else []
  {
    if s != [] {
      KeepOfKeep(s[1..], p, q, qInP);
      KeepAppend(if p(s[0]) then [s[0]] else [], Keep(s[1..], p), q);
      KeepSingleton(s[0], q);
    }
  }

  /** If every complex is scored negative, nothing is ranked. */
  lemma RankAllRejected<C>(complexes: seq<C>, fitness: C -> real)
    requires forall c :: c in complexes ==> fitness(c) < 0.0
    ensures Rank(complexes, fitness) == []
  {
    var sorted := SortDesc(complexes, fitness);
    forall c | c in sorted ensures !NonNegative(fitness)(c) {
      assert c in multiset(complexes);
    }
    KeepNone(sorted, NonNegative(fitness));
  }

  // ---------------------------------------------------------------------------
  // Constraint filtering.
  // ---------------------------------------------------------------------------

  /** The mask `diff2 < sphere**2` for a constraint atom at `atom`. */
  function Inside(atom: Point, sphere: real): Point -> bool {
    p => SqDist(p, atom) < sphere * sphere
  }

  /** Whether the site limit triggers, as written: it is compared with the length of the
      tuple returned by `np.where`, not with the number of kept points. */
  predicate Truncates<C>(d: Docker<C>) {
    d.maxNumOfSites.Some? && d.maxNumOfSites.value < WhereTupleLength
  }

  /** Docker.apply_constraint for zero or one constraint index. */
  function ApplyConstraint<C>(d: Docker<C>, points: seq<Point>): (r: Result<seq<Point>>)
    requires |d.constraint| <= 1
    ensures |d.constraint| == 0 ==> r == Ok(points)
    ensures |d.constraint| == 1 ==> (r.Ok? <==> PyIndex(d.hostCoords, d.constraint[0]).Ok?)
    ensures r.Err? ==> r.error == IndexError
  {
    if |d.constraint| == 0 then Ok(points)
    else
      var atom :- PyIndex(d.hostCoords, d.constraint[0]);
      var kept := Keep(points, Inside(atom, d.sphere));
      if Truncates(d) then Ok(SliceTo(kept, d.maxNumOfSites.value)) else Ok(kept)
  }

  /** The constraint atom, when the single constraint index is valid. */
  function ConstraintAtom<C>(d: Docker<C>): Point
    requires |d.constraint| == 1 && PyIndex(d.hostCoords, d.constraint[0]).Ok?
  {
    PyIndex(d.hostCoords, d.constraint[0]).value
  }

  /** The kept points are an in-order subsequence of the input. */
  lemma ConstraintKeepsOrder<C>(d: Docker<C>, points: seq<Point>)
    requires |d.constraint| <= 1 && ApplyConstraint(d, points).Ok?
    ensures IsSubsequence(ApplyConstraint(d, points).value, points)
  {
    var r := ApplyConstraint(d, points).value;
    if |d.constraint| == 0 {
      PrefixIsSubsequence(points, points);
    } else {
      var kept := Keep(points, Inside(ConstraintAtom(d), d.sphere));
      KeepIsSubsequence(points, Inside(ConstraintAtom(d), d.sphere));
      if Truncates(d) {
        PrefixIsSubsequence(r, kept);
        SubsequenceTransitive(r, kept, points);
      }
    }
  }

  /** Every kept point lies strictly inside the sphere around the constraint atom. */
  lemma ConstraintInside<C>(d: Docker<C>, points: seq<Point>)
    requires |d.constraint| == 1 && PyIndex(d.hostCoords, d.constraint[0]).Ok?
    ensures ApplyConstraint(d, points).Ok?
    ensures forall p :: p in ApplyConstraint(d, points).value ==>
              SqDist(p, ConstraintAtom(d)) < d.sphere * d.sphere
  {
    var kept := Keep(points, Inside(ConstraintAtom(d), d.sphere));
    var r := ApplyConstraint(d, points).value;
    forall p | p in r ensures p in kept {
      var i :| 0 <= i < |r| && r[i] == p;
      assert kept[i] == p;
    }
  }

  /** Unless the site limit triggers, every input point inside the sphere is kept, as
      many times as it occurs in the input. */
  lemma ConstraintKeepsAllInside<C>(d: Docker<C>, points: seq<Point>, p: Point)
    requires |d.constraint| == 1 && PyIndex(d.hostCoords, d.constraint[0]).Ok?
    requires !Truncates(d) && SqDist(p, ConstraintAtom(d)) < d.sphere * d.sphere
    ensures ApplyConstraint(d, points).Ok?
    ensures multiset(ApplyConstraint(d, points).value)[p] == multiset(points)[p]
  {
    KeepCount(points, Inside(ConstraintAtom(d), d.sphere), p);
  }

  /** The site limit triggers only for a limit below one: a limit of zero empties the
      result and a negative limit `-m` drops the last `m` kept points (Python slicing);
      any limit of one or more, or none, leaves the filtered points untruncated. */
  lemma ConstraintTruncation<C>(d: Docker<C>, points: seq<Point>)
    requires |d.constraint| == 1 && PyIndex(d.hostCoords, d.constraint[0]).Ok?
    ensures var kept := Keep(points, Inside(PyIndex(d.hostCoords, d.constraint[0]).value, d.sphere));
            var r := ApplyConstraint(d, points).value;
            && (d.maxNumOfSites.None? || d.maxNumOfSites.value >= 1 ==> r == kept)
            && (d.maxNumOfSites == Some(0) ==> r == [])
            && (d.maxNumOfSites.Some? && d.maxNumOfSites.value < 0 ==>
                  r <= kept && |r| == if |kept| + d.maxNumOfSites.value > 0
                                      then |kept| + d.maxNumOfSites.value else 0)
  {
  }

  /** As written, a site limit of one or more is never applied: a limit of 1 with two
      points inside the sphere still returns both. */
  lemma LimitIgnored()
    ensures var d := Docker([Point(0.0, 0.0, 0.0)], (_: seq<Point>) => Ok([]), (_: int) => 0.0,
                            BaseDockAtPoint, [0], DefaultSphere, Some(1));
            var points := [Point(0.0, 0.0, 0.0), Point(1.0, 0.0, 0.0)];
            && ApplyConstraint(d, points) == Ok(points)
            && |ApplyConstraint(d, points).value| > d.maxNumOfSites.value
  {
    var atom := Point(0.0, 0.0, 0.0);
    var points := [atom, Point(1.0, 0.0, 0.0)];
    var inside := Inside(atom, DefaultSphere);
    assert inside(points[0]) && inside(points[1]);
    KeepSingleton(points[0], inside);
    KeepSingleton(points[1], inside);
    assert points == [points[0]] + [points[1]];
    KeepAppend([points[0]], [points[1]], inside);
    assert Keep(points, inside) == points;
  }

  /** apply_constraint with the limit compared against the number of kept points: it fails
      in the same cases, and a non-negative limit bounds the number of points returned. */
  function ApplyConstraintIntended<C>(d: Docker<C>, points: seq<Point>): (r: Result<seq<Point>>)
    requires |d.constraint| <= 1
    ensures |d.constraint| == 0 ==> r == Ok(points)
    ensures |d.constraint| == 1 ==> (r.Ok? <==> PyIndex(d.hostCoords, d.constraint[0]).Ok?)
    ensures r.Err? ==> r.error == IndexError
    ensures r.Ok? && |d.constraint| == 1 && d.maxNumOfSites.Some? && d.maxNumOfSites.value >= 0 ==>
              |r.value| <= d.maxNumOfSites.value
  {
    if |d.constraint| == 0 then Ok(points)
    else
      var atom :- PyIndex(d.hostCoords, d.constraint[0]);
      var kept := Keep(points, Inside(atom, d.sphere));
      if d.maxNumOfSites.Some? && d.maxNumOfSites.value < |kept|
      then Ok(SliceTo(kept, d.maxNumOfSites.value))
      else Ok(kept)
  }

  /** Under the intended reading a non-negative limit `m` keeps exactly the first
      `min(m, |kept|)` points inside the sphere, so never more than `m`. */
  lemma IntendedLimitRespected<C>(d: Docker<C>, points: seq<Point>)
    requires |d.constraint| == 1 && PyIndex(d.hostCoords, d.constraint[0]).Ok?
    requires d.maxNumOfSites.Some? && d.maxNumOfSites.value >= 0
    ensures var kept := Keep(points, Inside(ConstraintAtom(d), d.sphere));
            var m := d.maxNumOfSites.value;
            && ApplyConstraintIntended(d, points).Ok?
            && |ApplyConstraintIntended(d, points).value| <= m
            && ApplyConstraintIntended(d, points).value == kept[..if m < |kept| then m else |kept|]
  {
  }

  // ---------------------------------------------------------------------------
  // Docking.
  // ---------------------------------------------------------------------------

  /** The complexes found at `points`, in point order: `complexes += dock_at_point(p)`
      for each point; the first exception raised ends the iteration. */
  function Gather<C>(points: seq<Point>, attempts: int, dockAt: (Point, int) -> Result<seq<C>>): (r: Result<seq<C>>)
    ensures r.Ok? <==> forall j :: 0 <= j < |points| ==> dockAt(points[j], attempts).Ok?
    decreases |points|
  {
    if points == [] then Ok([])
    else
      var before :- Gather(points[..|points| - 1], attempts, dockAt);
      var found :- dockAt(points[|points| - 1], attempts);
      Ok(before + found)
  }

  /** Docking the concatenation of two point lists concatenates the complexes found. */
  lemma {:induction false} GatherAppend<C>(ps: seq<Point>, qs: seq<Point>, attempts: int,
                                           dockAt: (Point, int) -> Result<seq<C>>)
    ensures Gather(ps + qs, attempts, dockAt)
         == match Gather(ps, attempts, dockAt)
            case Err(e) => Err(e)
            case Ok(a) =>
              match Gather(qs, attempts, dockAt)
              case Err(e) => Err(e)
              case Ok(b) => Ok(a + b)
    decreases |qs|
  {
    if qs == [] {
      assert ps + qs == ps;
      assert Gather(qs, attempts, dockAt) == Ok([]);
      if Gather(ps, attempts, dockAt).Ok? {
        assert Gather(ps, attempts, dockAt).value + [] == Gather(ps, attempts, dockAt).value;
      }
    } else {
      var n := |qs| - 1;
      assert (ps + qs)[..|ps + qs| - 1] == ps + qs[..n];
      assert (ps + qs)[|ps + qs| - 1] == qs[n];
      GatherAppend(ps, qs[..n], attempts, dockAt);
      match Gather(ps, attempts, dockAt)
      case Err(_) =>
      case Ok(a) =>
        match Gather(qs[..n], attempts, dockAt)
        case Err(_) =>
        case Ok(b) =>
          match dockAt(qs[n], attempts)
          case Err(_) =>
          case Ok(f) =>
            assert (a + b) + f == a + (b + f);
    }
  }

  /** One point contributes exactly what the strategy returns for it. */
  lemma GatherOne<C>(p: Point, attempts: int, dockAt: (Point, int) -> Result<seq<C>>)
    ensures Gather([p], attempts, dockAt) == dockAt(p, attempts)
  {
    assert [p][..0] == [];
    if dockAt(p, attempts).Ok? {
      assert [] + dockAt(p, attempts).value == dockAt(p, attempts).value;
    }
  }

  /** Docking fails exactly when some point fails, with the exception of the first one. */
  lemma GatherFails<C>(points: seq<Point>, attempts: int,
                       dockAt: (Point, int) -> Result<seq<C>>, e: Error)
    ensures Gather(points, attempts, dockAt) == Err(e) <==>
            exists i :: 0 <= i < |points| && dockAt(points[i], attempts) == Err(e) &&
                        forall j :: 0 <= j < i ==> dockAt(points[j], attempts).Ok?
  {
    if Gather(points, attempts, dockAt) == Err(e) {
      GatherFirstFailure(points, attempts, dockAt);
    }
    if i :| 0 <= i < |points| && dockAt(points[i], attempts) == Err(e) &&
            forall j :: 0 <= j < i ==> dockAt(points[j], attempts).Ok? {
      GatherFailsAt(points, attempts, dockAt, i);
    }
  }

  lemma {:induction false} GatherFailsAt<C>(points: seq<Point>, attempts: int,
                                            dockAt: (Point, int) -> Result<seq<C>>, i: int)
    requires 0 <= i < |points| && dockAt(points[i], attempts).Err?
    requires forall j :: 0 <= j < i ==> dockAt(points[j], attempts).Ok?
    ensures Gather(points, attempts, dockAt) == dockAt(points[i], attempts)
    decreases |points|
  {
    var n := |points| - 1;
    var init := points[..n];
    if i < n {
      assert init[i] == points[i];
      forall j | 0 <= j < i ensures dockAt(init[j], attempts).Ok? {
        assert init[j] == points[j];
      }
      GatherFailsAt(init, attempts, dockAt, i);
    } else {
      forall j | 0 <= j < n ensures dockAt(init[j], attempts).Ok? {
        assert init[j] == points[j];
      }
    }
  }

  lemma {:induction false} GatherFirstFailure<C>(points: seq<Point>, attempts: int,
                                                 dockAt: (Point, int) -> Result<seq<C>>)
    requires Gather(points, attempts, dockAt).Err?
    ensures exists i :: 0 <= i < |points| && dockAt(points[i], attempts) == Gather(points, attempts, dockAt) &&
                        forall j :: 0 <= j < i ==> dockAt(points[j], attempts).Ok?
    decreases |points|
  {
    var n := |points| - 1;
    var init := points[..n];
    if Gather(init, attempts, dockAt).Err? {
      GatherFirstFailure(init, attempts, dockAt);
      var i :| 0 <= i < n && dockAt(init[i], attempts) == Gather(init, attempts, dockAt) &&
               forall j :: 0 <= j < i ==> dockAt(init[j], attempts).Ok?;
      assert init[i] == points[i];
      assert forall j :: 0 <= j < i ==> init[j] == points[j];
    } else {
      forall j | 0 <= j < n ensures dockAt(points[j], attempts).Ok? {
        assert init[j] == points[j];
      }
      assert dockAt(points[n], attempts) == Gather(points, attempts, dockAt);
    }
  }

  /** Docker.dock as a value: sample, filter, dock at every point, rank. Whatever it
      returns is ranked: best first, no negative fitness. */
  function Docked<C>(d: Docker<C>, attempts: int): (r: Result<seq<C>>)
    requires |d.constraint| <= 1
    ensures r.Ok? ==> SortedDesc(r.value, d.fitness)
    ensures r.Ok? ==> forall c :: c in r.value ==> d.fitness(c) >= 0.0
  {
    var sampled :- d.sampler(d.hostCoords);
    var points :- ApplyConstraint(d, sampled);
    var complexes :- Gather(points, attempts, d.dockAtPoint);
    RankOrdered(complexes, d.fitness);
    Ok(Rank(complexes, d.fitness))
  }

  /** Once sampling and filtering have succeeded, dock is the ranking of what the points
      yield, or the first exception a point raises. */
  lemma DockedAfterFilter<C>(d: Docker<C>, attempts: int, sampled: seq<Point>, points: seq<Point>)
    requires |d.constraint| <= 1
    requires d.sampler(d.hostCoords) == Ok(sampled) && ApplyConstraint(d, sampled) == Ok(points)
    ensures Gather(points, attempts, d.dockAtPoint).Err? ==>
              Docked(d, attempts) == Err(Gather(points, attempts, d.dockAtPoint).error)
    ensures Gather(points, attempts, d.dockAtPoint).Ok? ==>
              Docked(d, attempts) == Ok(Rank(Gather(points, attempts, d.dockAtPoint).value, d.fitness))
  {
  }

  /** A failure at point `i` is the failure of the whole point loop. */
  lemma GatherPrefixFails<C>(points: seq<Point>, i: int, attempts: int,
                             dockAt: (Point, int) -> Result<seq<C>>)
    requires 0 <= i < |points| && Gather(points[..i + 1], attempts, dockAt).Err?
    ensures Gather(points, attempts, dockAt) == Gather(points[..i + 1], attempts, dockAt)
  {
    GatherAppend(points[..i + 1], points[i + 1..], attempts, dockAt);
    assert points[..i + 1] + points[i + 1..] == points;
  }

  /** Docker.dock: accumulates the complexes found at each filtered point in point order
      and ranks them; an exception from the sampler, the constraint or the strategy ends it. */
  method Dock<C>(d: Docker<C>, attempts: int) returns (r: Result<seq<C>>)
    requires |d.constraint| <= 1
    ensures r.Ok? <==> exists points, complexes ::
              d.sampler(d.hostCoords).Ok? &&
              ApplyConstraint(d, d.sampler(d.hostCoords).value) == Ok(points) &&
              Gather(points, attempts, d.dockAtPoint) == Ok(complexes)
    ensures r == Docked(d, attempts)
  {
    var sampled :- d.sampler(d.hostCoords);
    var points :- ApplyConstraint(d, sampled);
    DockedAfterFilter(d, attempts, sampled, points);
    var complexes: seq<C> := [];
    for i := 0 to |points|
      invariant Gather(points[..i], attempts, d.dockAtPoint) == Ok(complexes)
    {
      assert points[..i + 1][..i] == points[..i];
      var found := d.dockAtPoint(points[i], attempts);
      if found.Err? {
        GatherPrefixFails(points, i, attempts, d.dockAtPoint);
        return Err(found.error);
      }
      complexes := complexes + found.value;
    }
    assert points[..|points|] == points;
    r := Ok(Rank(complexes, d.fitness));
  }

  /** A fitness that rejects everything makes dock return the empty list (or fail). */
  lemma DockAllRejected<C>(d: Docker<C>, attempts: int)
    requires |d.constraint| <= 1
    requires forall c :: d.fitness(c) < 0.0
    ensures Docked(d, attempts).Ok? ==> Docked(d, attempts).value == []
  {
    var sampled := d.sampler(d.hostCoords);
    if sampled.Ok? && ApplyConstraint(d, sampled.value).Ok? {
      var points := ApplyConstraint(d, sampled.value).value;
      var found := Gather(points, attempts, d.dockAtPoint);
      if found.Ok? {
        AllRejected(found.value, d.fitness);
      }
    }
  }

  /** RankAllRejected for a fitness negative everywhere. The elements of a sequence produced
      by a function-typed field carry no type facts the solver can use to instantiate
      `forall c :: fitness(c) < 0.0`, so the quantifier is passed on whole. */
  lemma AllRejected<C>(complexes: seq<C>, fitness: C -> real)
    requires forall c :: fitness(c) < 0.0
    ensures Rank(complexes, fitness) == []
  {
    RankAllRejected(complexes, fitness);
  }

  /** The base docker fails with NotImplementedError as soon as one point survives the
      constraint, and returns an empty ranking when none does. */
  lemma BaseDockerDock<C>(d: Docker<C>, attempts: int)
    requires |d.constraint| <= 1
    requires d.dockAtPoint == BaseDockAtPoint
    requires d.sampler(d.hostCoords).Ok?
    requires ApplyConstraint(d, d.sampler(d.hostCoords).value).Ok?
    ensures var points := ApplyConstraint(d, d.sampler(d.hostCoords).value).value;
            Docked(d, attempts) == if points == [] then Ok([]) else Err(NotImplementedError)
  {
    var points := ApplyConstraint(d, d.sampler(d.hostCoords).value).value;
    if points != [] {
      GatherFails(points, attempts, d.dockAtPoint, NotImplementedError);
      assert d.dockAtPoint(points[0], attempts) == Err(NotImplementedError);
    }
  }
}
