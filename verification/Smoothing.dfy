/** Exponential smoothing shared by the per-worker throughput table and the lane cost tables.
    Reals stand for the source's floating point numbers. */
module Smoothing {
  import opened Wrappers

  /** One update: the first sample is taken as it is, later ones are mixed 0.6 / 0.4. */
  function Ema(previous: Option<real>, sample: real): real {
    match previous
    case None => sample
    case Some(v) => 0.6 * v + 0.4 * sample
  }

  /** A whole sequence of updates, oldest sample first. */
  function EmaAll(start: Option<real>, samples: seq<real>): Option<real> {
    if samples == [] then start
    else Some(Ema(EmaAll(start, samples[..|samples| - 1]), samples[|samples| - 1]))
  }

  /** A smoothed value never leaves the range of what was fed in. */
  lemma {:induction false} EmaStaysInRange(start: Option<real>, samples: seq<real>, lo: real, hi: real)
    requires start.Some? ==> lo <= start.value <= hi
    requires forall k | 0 <= k < |samples| :: lo <= samples[k] <= hi
    ensures EmaAll(start, samples).Some? <==> start.Some? || samples != []
    ensures EmaAll(start, samples).Some? ==> lo <= EmaAll(start, samples).value <= hi
  {
    if samples != [] {
      EmaStaysInRange(start, samples[..|samples| - 1], lo, hi);
    }
  }

  function Power(b: real, n: nat): real {
    if n == 0 then 1.0 else b * Power(b, n - 1)
  }

  /** Under a constant sample the error shrinks by exactly 0.6 per update. */
  lemma {:induction false} EmaConverges(start: real, samples: seq<real>, target: real)
    requires forall k | 0 <= k < |samples| :: samples[k] == target
    ensures EmaAll(Some(start), samples).Some?
    ensures EmaAll(Some(start), samples).value - target == Power(0.6, |samples|) * (start - target)
  {
    if samples != [] {
      EmaConverges(start, samples[..|samples| - 1], target);
      var before := EmaAll(Some(start), samples[..|samples| - 1]).value;
      var p, d := Power(0.6, |samples| - 1), start - target;
      assert EmaAll(Some(start), samples).value - target == 0.6 * (before - target);
      assert 0.6 * (p * d) == (0.6 * p) * d;
    }
  }
}
