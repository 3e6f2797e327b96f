/** The helpers of the upwind sedimentation scheme (upwind_sedimentation.py):
    the CFL bound on the sedimentation sub-step, the tendency update of one
    level from the fluxes through its top and bottom, and the fluxes handed
    to the upper air and to the ground. Levels are numbered from the ground
    (level 0) upwards; wsed at a level is the downward flux leaving it. */
module Sedimentation {
  import opened Fields

  /** upper_air_flux: the flux through a level, weighted by the fraction
      max_tstep / dt of the step during which it falls. */
  function UpperAirFlux(wsed: real, maxTstep: real, dt: real): (r: real)
    requires dt != 0.0
    ensures r * dt == wsed * maxTstep
    ensures maxTstep == dt ==> r == wsed
  {
    wsed * (maxTstep / dt)
  }

  /** mixing_ratio_update: over max_tstep, a level gains what falls in from
      the level above and loses what falls out of it; the difference,
      spread over dt, is added to the tendency. */
  function MixingRatioUpdate(maxTstep: real, oorhodz: real, wsedAbove: real, wsed: real,
                             rsTnd: real, dt: real): (r: real)
    requires dt != 0.0
    ensures (r - rsTnd) * dt == maxTstep * oorhodz * (wsedAbove - wsed)
    ensures wsedAbove == wsed ==> r == rsTnd
  {
    var mrchange := maxTstep * oorhodz * (wsedAbove - wsed);
    rsTnd + mrchange / dt
  }

  /** The guard of maximum_time_step: the species is present, falls, and
      some of the step remains. */
  predicate Sedimenting(rtmin: real, r: real, wsed: real, remainingTime: real)
  {
    r > rtmin && wsed > Tiny && remainingTime > 0.0
  }

  /** maximum_time_step: the sub-step is cut so that what falls out of a
      level in it is at most split_maxcfl times what the level holds. */
  function MaximumTimeStep(rtmin: real, rhodref: real, maxTstep: real, r: real, dz: real,
                           wsed: real, remainingTime: real, splitMaxcfl: real): (t: real)
    ensures t <= maxTstep
    ensures !Sedimenting(rtmin, r, wsed, remainingTime) ==> t == maxTstep
    ensures Sedimenting(rtmin, r, wsed, remainingTime) ==>
              t * wsed <= splitMaxcfl * rhodref * r * dz
    ensures Sedimenting(rtmin, r, wsed, remainingTime) ==>
              t == maxTstep || t * wsed == splitMaxcfl * rhodref * r * dz
  {
    if r > rtmin && wsed > Tiny && remainingTime > 0.0 then
      var cfl := splitMaxcfl * rhodref * r * dz / wsed;
      assert cfl * wsed == splitMaxcfl * rhodref * r * dz;
      var t := Min(maxTstep, cfl);
      assert t * wsed <= cfl * wsed;
      t
    else
      maxTstep
  }

  /** instant_precipitation: the ground flux as a depth of liquid water. */
  function InstantPrecipitation(wsed: real, maxTstep: real, dt: real, rholw: real): (r: real)
    requires dt != 0.0 && rholw != 0.0
    ensures r * rholw == UpperAirFlux(wsed, maxTstep, dt)
  {
    wsed / rholw * (maxTstep / dt)
  }

  /** Feeding the bound back in as max_tstep gives the same bound. */
  lemma MaximumTimeStepIdempotent(rtmin: real, rhodref: real, maxTstep: real, r: real, dz: real,
                                  wsed: real, remainingTime: real, splitMaxcfl: real)
    ensures var t := MaximumTimeStep(rtmin, rhodref, maxTstep, r, dz, wsed, remainingTime, splitMaxcfl);
            MaximumTimeStep(rtmin, rhodref, t, r, dz, wsed, remainingTime, splitMaxcfl) == t
  {
  }

  /** A column of levels: the inverse of rho * dz at each level, the flux
      leaving each level plus the flux entering the top, and the tendencies. */
  predicate ColumnShape(oorhodz: seq<real>, wsed: seq<real>, rsTnd: seq<real>)
  {
    |wsed| == |oorhodz| + 1 && |rsTnd| == |oorhodz|
    && forall i :: 0 <= i < |oorhodz| ==> oorhodz[i] != 0.0
  }

  /** The mass per unit area that levels k and above gain over the step
      when every level's tendency is updated by mixing_ratio_update. */
  function ColumnGain(maxTstep: real, oorhodz: seq<real>, wsed: seq<real>, rsTnd: seq<real>,
                      dt: real, k: nat): real
    requires ColumnShape(oorhodz, wsed, rsTnd) && dt != 0.0 && k <= |oorhodz|
    decreases |oorhodz| - k
  {
    if k == |oorhodz| then 0.0
    else
      (MixingRatioUpdate(maxTstep, oorhodz[k], wsed[k + 1], wsed[k], rsTnd[k], dt) - rsTnd[k]) * dt / oorhodz[k]
      + ColumnGain(maxTstep, oorhodz, wsed, rsTnd, dt, k + 1)
  }

  /** The level updates telescope: the levels from k up gain what enters
      at the top minus what leaves level k, over max_tstep. */
  lemma {:induction false} ColumnGainTelescopes(maxTstep: real, oorhodz: seq<real>, wsed: seq<real>,
                                                rsTnd: seq<real>, dt: real, k: nat)
    requires ColumnShape(oorhodz, wsed, rsTnd) && dt != 0.0 && k <= |oorhodz|
    ensures ColumnGain(maxTstep, oorhodz, wsed, rsTnd, dt, k) == maxTstep * (wsed[|oorhodz|] - wsed[k])
    decreases |oorhodz| - k
  {
    if k < |oorhodz| {
      ColumnGainTelescopes(maxTstep, oorhodz, wsed, rsTnd, dt, k + 1);
      LevelGain(maxTstep, oorhodz[k], wsed[k + 1], wsed[k], rsTnd[k], dt);
    }
  }

  /** One level gains, per unit area, max_tstep times the flux entering it
      minus the flux leaving it. */
  lemma LevelGain(maxTstep: real, oorhodz: real, wsedAbove: real, wsed: real, rsTnd: real, dt: real)
    requires oorhodz != 0.0 && dt != 0.0
    ensures (MixingRatioUpdate(maxTstep, oorhodz, wsedAbove, wsed, rsTnd, dt) - rsTnd) * dt / oorhodz
            == maxTstep * (wsedAbove - wsed)
  {
    var r := MixingRatioUpdate(maxTstep, oorhodz, wsedAbove, wsed, rsTnd, dt);
    DivideOut((r - rsTnd) * dt, oorhodz, maxTstep * (wsedAbove - wsed));
  }

  lemma DivideOut(x: real, d: real, y: real)
    requires d != 0.0 && x == y * d
    ensures x / d == y
  {
  }

  /** Sedimentation conserves water: with nothing entering the top of the
      column, the column loses over the step exactly the water that
      instant_precipitation hands to the ground from level 0. */
  lemma ColumnLossIsGroundPrecipitation(maxTstep: real, oorhodz: seq<real>, wsed: seq<real>,
                                        rsTnd: seq<real>, dt: real, rholw: real)
    requires ColumnShape(oorhodz, wsed, rsTnd) && dt != 0.0 && rholw != 0.0
    requires wsed[|oorhodz|] == 0.0
    ensures ColumnGain(maxTstep, oorhodz, wsed, rsTnd, dt, 0)
            == -(dt * rholw * InstantPrecipitation(wsed[0], maxTstep, dt, rholw))
  {
    ColumnGainTelescopes(maxTstep, oorhodz, wsed, rsTnd, dt, 0);
    var p := InstantPrecipitation(wsed[0], maxTstep, dt, rholw);
    assert p * rholw * dt == wsed[0] * maxTstep;
  }
}
