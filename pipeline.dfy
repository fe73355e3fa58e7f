/** The docker driven by the localized grid sampler: `dock` first asks the sampler for
    points, so the sampler's center-count restriction decides whether docking can run. */
module Pipeline {
  import opened Basics
  import opened Grid
  import opened Dockers

  /** The grid sampler as the docker sees it: a function of the host's coordinates, which
      yields `density^3` points, and only for a sampler with exactly one center. */
  function GridSampling(s: GridSampler): (sample: seq<Point> -> Result<seq<Point>>)
    ensures forall coords :: sample(coords).Ok? ==>
              |s.centers| == 1 && |sample(coords).value| == s.density * s.density * s.density
  {
    coords => Sampled(s, coords)
  }

  /** A docker using the grid sampler can only succeed when the sampler has exactly one
      center; with none it fails with UnboundLocalError, and with several valid ones with
      TypeError, before any docking is attempted. */
  lemma GridDockNeedsOneCenter<C>(d: Docker<C>, s: GridSampler, attempts: int)
    requires |d.constraint| <= 1 && d.sampler == GridSampling(s)
    ensures Docked(d, attempts).Ok? ==> |s.centers| == 1
    ensures s.density >= 0 && s.centers == [] ==> Docked(d, attempts) == Err(UnboundLocalError)
    ensures (s.density >= 0 && |s.centers| >= 2 && PyIndex(d.hostCoords, s.centers[0]).Ok? &&
             PyIndex(d.hostCoords, s.centers[1]).Ok?) ==> Docked(d, attempts) == Err(TypeError)
  {
    if s.density >= 0 && s.centers == [] {
      NoCentersFails(s, d.hostCoords);
    }
    if s.density >= 0 && |s.centers| >= 2 && PyIndex(d.hostCoords, s.centers[0]).Ok? &&
       PyIndex(d.hostCoords, s.centers[1]).Ok? {
      ManyCentersFail(s, d.hostCoords);
    }
  }
}
