/** Four places where the limiter as written departs from what its stages
    evidently intend. For each: an input on which the as-written stage of
    module Limiter misses the intent, and the intended stage with the
    property it was meant to have. */
module LimiterFindings {
  import opened Fields
  import opened Limiter

  // ---------------------------------------------------------------------
  // Freezing-point guard: abs(theta_a_tnd > 1e-20) instead of
  // abs(theta_a_tnd) > 1e-20.

  /** A cooling point above freezing that reaches the freezing point after 1
      time unit keeps its step of 10: the crossing is not limited. */
  lemma CoolingCrossingIsMissed()
    ensures CrossingTime(274.0, 0.0, -1.0, 273.0) == 1.0
    ensures FreezeLimit(Step(10.0, true), 274.0, 0.0, -1.0, 273.0).dt == 10.0
  {
  }

  /** The freezing-point stage with the guard on the magnitude of the tendency. */
  function FreezeLimitIntended(s: Step, th: real, thB: real, thA: real, thetaTt: real): (r: Step)
    ensures Shrinks(s, r) && r.ldcompute == s.ldcompute
    ensures (th - thetaTt) * (th + thB - thetaTt) < 0.0 ==> r.dt == 0.0
    ensures Abs(thA) > Tiny && CrossingTime(th, thB, thA, thetaTt) > 0.0 ==>
              r.dt <= CrossingTime(th, thB, thA, thetaTt)
    ensures r.dt == 0.0 || r.dt == s.dt || (Abs(thA) > Tiny && r.dt == CrossingTime(th, thB, thA, thetaTt))
    // without a sign change the step is min(step, crossing time), so a
    // positive step stays positive
    ensures Abs(thA) > Tiny && CrossingTime(th, thB, thA, thetaTt) > 0.0
            && (th - thetaTt) * (th + thB - thetaTt) >= 0.0 ==>
              r.dt <= s.dt && (r.dt == s.dt || r.dt == CrossingTime(th, thB, thA, thetaTt))
    ensures s.dt > 0.0 && (th - thetaTt) * (th + thB - thetaTt) >= 0.0 ==> r.dt > 0.0
  {
    var dt0 := if (th - thetaTt) * (th + thB - thetaTt) < 0.0 then 0.0 else s.dt;
    if Abs(thA) > Tiny && CrossingTime(th, thB, thA, thetaTt) > 0.0 then
      Step(Min(dt0, CrossingTime(th, thB, thA, thetaTt)), s.ldcompute)
    else
      Step(dt0, s.ldcompute)
  }

  /** The correction changes only the cooling case: unless theta_a_tnd is
      below -1e-20, the intended stage is the stage as written. */
  lemma IntendedDiffersOnlyWhenCooling(s: Step, th: real, thB: real, thA: real, thetaTt: real)
    requires !(thA < -Tiny)
    ensures FreezeLimitIntended(s, th, thB, thA, thetaTt) == FreezeLimit(s, th, thB, thA, thetaTt)
  {
  }

  /** With the intended guard, no positive step lets the potential
      temperature theta + b + a * t reach the freezing point before its end,
      whatever the sign of the tendency. */
  lemma {:induction false} IntendedStepStopsAtFreezing(s: Step, th: real, thB: real, thA: real, thetaTt: real, tau: real)
    requires Abs(thA) > Tiny
    requires 0.0 < tau && th + thB + thA * tau == thetaTt
    ensures FreezeLimitIntended(s, th, thB, thA, thetaTt).dt <= tau
  {
    assert CrossingTime(th, thB, thA, thetaTt) == tau;
  }

  // ---------------------------------------------------------------------
  // Ice guard: rc_t > I_RTMIN instead of ri_t > I_RTMIN.

  /** A point with plenty of ice, no cloud and a melting ice tendency fails
      the as-written guard, so the ice MRSTEP limit is skipped. */
  lemma IceGuardReadsCloud(c: Cell, cfg: Config)
    requires c.cloud.mr == 0.0 && c.ice.mr == 1.0 && cfg.iRtmin == 0.0 && c.ice.aTnd == -1.0
    ensures !IceGuard(c, cfg) && !IceGuard(c.(cloud := c.cloud.(mr := -1.0)), cfg)
    ensures IceGuard(c.(cloud := c.cloud.(mr := 1.0)), cfg)
  {
  }

  /** The ice guard as for every other species: ice present or growing. */
  predicate IceGuardIntended(c: Cell, cfg: Config)
  {
    SpeciesGuard(c.ice, cfg.iRtmin)
  }

  /** The intended guard depends on the ice fields only. */
  lemma IceGuardIntendedIgnoresCloud(c: Cell, cfg: Config, cloud: Species)
    ensures IceGuardIntended(c.(cloud := cloud), cfg) == IceGuardIntended(c, cfg)
    ensures c.ice.mr > cfg.iRtmin ==> IceGuardIntended(c, cfg)
  {
  }

  // ---------------------------------------------------------------------
  // Threshold time: the signed MRSTEP plus the drift is not divided by the
  // tendency.

  /** With a tendency of 2 and MRSTEP 1, the as-written threshold is 1, at
      which time the species has changed by 2, not by MRSTEP. */
  lemma ThresholdIsNotATime(sp: Species, h: Helpers)
    requires sp.mr == 0.0 && sp.mr0 == 0.0 && sp.b == 0.0 && sp.aTnd == 2.0
    requires h.sign(1.0, 2.0) == 1.0
    ensures TimeThreshold(sp, 1.0, h) == 1.0
    ensures sp.mr + sp.b + sp.aTnd * TimeThreshold(sp, 1.0, h) != sp.mr0 + 1.0
  {
  }

  /** The threshold time divided by the tendency. */
  function TimeThresholdIntended(sp: Species, mrstep: real, h: Helpers): (r: real)
    ensures Abs(sp.aTnd) > Tiny ==>
              sp.mr + sp.b + sp.aTnd * r == sp.mr0 + h.sign(1.0, sp.aTnd) * mrstep
    ensures Abs(sp.aTnd) <= Tiny ==> r == -1.0
  {
    if Abs(sp.aTnd) > Tiny then
      (h.sign(1.0, sp.aTnd) * mrstep + sp.mr0 - sp.mr - sp.b) / sp.aTnd
    else
      -1.0
  }

  // ---------------------------------------------------------------------
  // r_b_max starts from |rr_b| instead of |rc_b|.

  /** A cloud change of 1 with MRSTEP 0.5 and no other change does not
      trigger the fallback. */
  lemma CloudChangeIsIgnored(c: Cell)
    requires c.cloud.b == 1.0 && c.rain.b == 0.0 && c.ice.b == 0.0 && c.snow.b == 0.0 && c.graupel.b == 0.0
    ensures RBMax(c) == 0.0
    ensures BMaxFallback(Step(10.0, true), RBMax(c), 0.5) == Step(10.0, true)
  {
  }

  /** r_b_max over all five condensed species. */
  function RBMaxIntended(c: Cell): (r: real)
    ensures r >= Abs(c.cloud.b) && r >= Abs(c.rain.b) && r >= Abs(c.ice.b)
    ensures r >= Abs(c.snow.b) && r >= Abs(c.graupel.b)
    ensures r == Abs(c.cloud.b) || r == Abs(c.rain.b) || r == Abs(c.ice.b)
            || r == Abs(c.snow.b) || r == Abs(c.graupel.b)
  {
    var afterCloud := Abs(c.cloud.b);
    var afterRain := Max(afterCloud, Abs(c.rain.b));
    var afterIce := Max(afterRain, Abs(c.ice.b));
    var afterSnow := Max(afterIce, Abs(c.snow.b));
    Max(afterSnow, Abs(c.graupel.b))
  }

  /** With the intended maximum, any species whose instantaneous change
      exceeds MRSTEP stops the point. */
  lemma IntendedFallbackCatchesEverySpecies(s: Step, c: Cell, mrstep: real)
    requires Abs(c.cloud.b) > mrstep || Abs(c.rain.b) > mrstep || Abs(c.ice.b) > mrstep
             || Abs(c.snow.b) > mrstep || Abs(c.graupel.b) > mrstep
    ensures BMaxFallback(s, RBMaxIntended(c), mrstep) == Step(0.0, false)
  {
  }
}
