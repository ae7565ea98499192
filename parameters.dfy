/** The two update rules of the stress simulation (src/cpp/parameters.cpp):
    decay over elapsed time and the per-type spike, with the spike's
    additive and multiplicative coefficients looked up by event type. */
module Parameters {
  import opened Wrappers

  /** The floating-point `pow` of the C++ math library. It is left
      uninterpreted: the model only relies on it being a function of its
      two arguments. */
  type PowFn = (real, real) -> real

  /** Scaling constants of the decay rule. */
  const StressScale: real := 1.5
  const DurationScale: real := 1000.0

  /** Decay of `stress` over `duration` milliseconds: `pow` applied to the
      scaled stress and the scaled duration. Nothing but the two arguments
      (and the fixed `pow`) enters the result. */
  function Decay(pow: PowFn, stress: real, duration: real): real
  {
    pow(stress / StressScale, duration / DurationScale)
  }

  /** The coefficient table of one run: the `adds` and `mults` columns,
      each keyed by event type. It is a value, so nothing a rule does can
      change it. */
  datatype Params = Params(adds: map<string, real>, mults: map<string, real>)
  {
    /** Both coefficient lookups succeed for `t`. */
    predicate Knows(t: string)
    {
      t in adds && t in mults
    }
  }

  /** The spike rule for an event of type `t` whose coefficients exist. */
  function Spike(p: Params, stress: real, t: string): real
    requires p.Knows(t)
  {
    (stress + p.adds[t]) * p.mults[t]
  }

  /** The spike rule with its lookup failure made explicit: a type missing
      from either column is an error, never a default coefficient. */
  function TrySpike(p: Params, stress: real, t: string): (r: Option<real>)
    ensures r.Some? <==> t in p.adds && t in p.mults
    ensures r.Some? ==> r.value == Spike(p, stress, t)
  {
    if p.Knows(t) then Some(Spike(p, stress, t)) else None
  }

  /** The spike rule is affine in the stress, with slope `mults[t]`. */
  lemma SpikeAffine(p: Params, s1: real, s2: real, t: string)
    requires p.Knows(t)
    ensures Spike(p, s1, t) - Spike(p, s2, t) == (s1 - s2) * p.mults[t]
  {
  }

  /** A type with coefficients (0, 1) leaves the stress as it is. */
  lemma SpikeNeutral(p: Params, s: real, t: string)
    requires p.Knows(t) && p.adds[t] == 0.0 && p.mults[t] == 1.0
    ensures Spike(p, s, t) == s
  {
  }
}
