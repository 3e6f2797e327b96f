# ICE3 sub-cycling time-step bookkeeping, modelled in Dafny

This project models the time-step bookkeeping of the ICE3 microphysics
sub-cycling integrator of `ice3_gt4py`, a GT4Py port of PHYEX
`mode_ice4_stepping.F90` and `rain_ice.F90`:

- the **limiter** stencil (`limiter.py`), which folds the external tendencies
  into the tendencies, proposes a sub-step `delta_t_micro` equal to the time
  left in the outer step `TSTEP`, and then lets a fixed sequence of stages
  shrink it and clear the per-point flag `ldcompute`. The stages are the
  freezing-point crossing, the species limiters, the end of the outer step,
  the soft-recompute boundary, the `MRSTEP` limit per species, and the
  `r_b_max` fallback;
- the **timing stencils** (`ice4_stepping.py`, `ice4_stepping_soft.py`), which
  initialise `t_micro`, derive `ldcompute`, open the soft window `t_soft`, and
  recompute the temperature and latent-heat factors;
- the **start of step** (`rain_ice_start.py`), which builds the activity mask
  `ldmicro` and the latent-heat factors, and saves the initial state;
- the **end of step** (`rain_ice_total_tendencies.py`), which turns the
  saved and final state into tendencies and sources, adding the nucleation
  term `rvheni` once;
- the **sedimentation helpers** (`upwind_sedimentation.py`): the CFL bound
  on the sedimentation sub-step, the per-level tendency update, and the
  fluxes to the upper air and to the ground.

Every modelled stencil is point-wise, with one exception: the
sedimentation helper `mixing_ratio_update` reads the flux of the level
above (upwind_sedimentation.py:143), which the model passes in as the
parameter `wsedAbove`. One grid point's storage is the `Cell`
record of `fields.dfy`; each condensed species' fields are grouped in a
`Species` record. Each of the other stencils is a function on one `Cell` plus a method
that applies it in place over an `array<Cell>`. Because these stencils are
point-wise, running each `computation(PARALLEL)` block over the whole grid in
turn gives the same result as running all of them on one point at a time.
The limiter's per-point method `LimitCell` reassigns its step and flag
stage by stage, as the stencil does. It is proved equal to the functional
`Limited`, which is built from one function per stage.

The helpers these files call from outside this model
(`mixing_ratio_step_limiter`, `sign`, `cph`, `theta2temperature`,
`sublimation_latent_heat`, `vaporisation_latent_heat`) are the
function-typed fields of a `Helpers` value. All but one are imported;
`limiter.py` calls `mixing_ratio_step_limiter` without importing or
defining it, so that name is unresolved in the file as written. Every
property holds for every choice of helpers that meets the stated `requires`; the members that constrain
them are `Stepping.Heat` and `Stepping.ApplyHeat`, which require `cph` to be
nonzero at the point (at every point for `ApplyHeat`), and
`LimiterFindings.ThresholdIsNotATime` requires `sign(1, 2) == 1`. All
arithmetic is on Dafny `real`.

Four places in `limiter.py` read as slips, and the model follows the code
as written in each (the corrected stages sit beside it):
- The `MRSTEP` threshold `time_threshold_tmp` is compared with
  `delta_t_micro`, a time, but the mixing-ratio distance is not divided by
  the tendency (limiter.py:133-146).
- `r_b_max` is started from `abs(rr_b)` right after the cloud stage
  (limiter.py:154), and `abs(rr_b)` is taken again after the rain stage
  (limiter.py:174), so the cloud change never enters the maximum.
- The freezing-point guard takes the absolute value of a comparison
  (limiter.py:87), so only warming tendencies bound the step.
- The ice `MRSTEP` guard tests the cloud mixing ratio (limiter.py:188),
  while every other species tests its own.

See "## Findings".

## Model

| member | source | states |
|---|---|---|
| `Limiter.Limited` | src/ice3_gt4py/stencils/limiter.py:69-240 | each `*_a_tnd` ends as its old value plus its `*_ext_tnd`; only the six tendencies, `delta_t_micro` and `ldcompute` are written; `ldcompute` is only ever cleared; `r_b_max > MRSTEP` gives step 0 and a cleared flag |
| `Limiter.LimiterTrace` | src/ice3_gt4py/stencils/limiter.py:78-240 | the candidate is `TSTEP - t_micro` when `ldcompute` holds and 0 otherwise; no visible stage lengthens the step (beyond lifting a negative step to 0) or sets the flag; after the end-of-step stage `t_micro + dt > TSTEP` implies the flag is clear; an inactive point stays inactive |
| `Limiter.FreezeLimit` | src/ice3_gt4py/stencils/limiter.py:82-90 | a sign change of `theta - TT/exn` caused by `theta_b` gives step 0; only when `theta_a_tnd > 1e-20` does a positive crossing time bound the step; the result is 0, the old step or the crossing time; without a sign change it is exactly `min(step, crossing time)`, so a positive step stays positive |
| `Limiter.StepLimiters` | src/ice3_gt4py/stencils/limiter.py:94-117 | the five `mixing_ratio_step_limiter` calls leave `ldcompute` unchanged |
| `Limiter.EndOfStep` | src/ice3_gt4py/stencils/limiter.py:120-121 | the step is unchanged; the flag survives exactly when it held and `t_micro + dt <= TSTEP` |
| `Limiter.SoftLimit` | src/ice3_gt4py/stencils/limiter.py:125-129 | with soft windows on, the step ends no later than `t_soft + delta_t_soft`; a step past it becomes exactly `t_soft + delta_t_soft - t_micro`, strictly shorter, with the flag cleared; otherwise nothing changes |
| `Limiter.TimeThreshold` | src/ice3_gt4py/stencils/limiter.py:131-137 | a tendency of magnitude at most `1e-20` gives threshold -1, which no later stage acts on |
| `Limiter.MrStepLimit` | src/ice3_gt4py/stencils/limiter.py:140-147 | a threshold in `[0, dt)` with the species guard holding becomes the step and clears the flag; otherwise nothing changes |
| `Limiter.RBMax` | src/ice3_gt4py/stencils/limiter.py:153-234 | `r_b_max` is the largest of `|rr_b|, |ri_b|, |rs_b|, |rg_b|` (cloud is not included) |
| `Limiter.BMaxFallback` | src/ice3_gt4py/stencils/limiter.py:237-240 | above `MRSTEP` the point stops with step 0; otherwise nothing changes |
| `Limiter.LimitCell` | src/ice3_gt4py/stencils/limiter.py:69-240 | the stage-by-stage computation at one point equals `Limited` |
| `Limiter.TimeStages` | src/ice3_gt4py/stencils/limiter.py:78-129 | the candidate, freezing, species-limiter, end-of-step and soft stages computed in sequence give the trace's soft-stage step |
| `Limiter.MrStepStages` | src/ice3_gt4py/stencils/limiter.py:131-240 | the five `MRSTEP` stages and the fallback, with `r_b_max` accumulated along the way, give the trace's final step |
| `Limiter.FreezeStage` | src/ice3_gt4py/stencils/limiter.py:82-90 | the imperative freezing stage equals `FreezeLimit` |
| `Limiter.EndOfStepStage` | src/ice3_gt4py/stencils/limiter.py:120-121 | the imperative end-of-step stage equals `EndOfStep` |
| `Limiter.SoftStage` | src/ice3_gt4py/stencils/limiter.py:125-129 | the imperative soft stage equals `SoftLimit` |
| `Limiter.MrStepStage` | src/ice3_gt4py/stencils/limiter.py:140-147 | the imperative `MRSTEP` stage equals `MrStepLimit` |
| `Limiter.LimitGrid` | src/ice3_gt4py/stencils/limiter.py:69-240 | every point of the grid is limited on its own |
| `Limiter.ApplyLimiter` | src/ice3_gt4py/stencils/limiter.py:17-240 | after the stencil every point holds `Limited` of its old value |
| `Limiter.StagesAfterStepLimitersNeverLengthen` | src/ice3_gt4py/stencils/limiter.py:119-240 | the final step is at most the step the opaque species limiters returned, or 0 |
| `Stepping.Heat` | src/ice3_gt4py/stencils/ice4_stepping.py:77-80 | `t = theta2temperature(th, exn)`; `ls_fact * cph = L_s(t)` and `lv_fact * cph = L_v(t)`, with cph taken as `cph(rv, rc, ri, rr, rs, rg)`; nothing else is written |
| `Stepping.ApplyTMicroInit` | src/ice3_gt4py/stencils/ice4_stepping.py:24-39 | `t_micro` becomes 0 where `ldmicro` holds and `TSTEP` elsewhere; nothing else (`ldmicro` included) is written |
| `Stepping.ApplyUpdateLdcompute` | src/ice3_gt4py/stencils/ice4_stepping.py:89-102 | `ldcompute` holds exactly where `t_micro < TSTEP`; nothing else (`t_micro` included) is written |
| `Stepping.ApplyHeat` | src/ice3_gt4py/stencils/ice4_stepping.py:48-80 | every point holds `Heat` of its old value |
| `Stepping.InitThenUpdateGivesLdmicro` | src/ice3_gt4py/stencils/ice4_stepping.py:39-102 | with `TSTEP > 0`, initialising `t_micro` then deriving `ldcompute` gives `ldcompute == ldmicro` |
| `Stepping.UpdateLdcomputeIdempotent` | src/ice3_gt4py/stencils/ice4_stepping.py:102 | deriving `ldcompute` twice equals deriving it once |
| `Stepping.FinishedPointStaysOff` | src/ice3_gt4py/stencils/ice4_stepping.py:102 | a point with `t_micro >= TSTEP` gets candidate step 0 with a clear flag, and the limiter leaves it off |
| `SteppingSoft.ApplyInitTSoft` | src/ice3_gt4py/stencils/ice4_stepping_soft.py:17-29 | afterwards `t_soft == t_micro` everywhere; `t_micro` and every other field are unchanged |
| `SteppingSoft.InitTSoftIdempotent` | src/ice3_gt4py/stencils/ice4_stepping_soft.py:29 | applying the stencil twice equals applying it once |
| `SteppingSoft.SoftTestAfterInit` | src/ice3_gt4py/stencils/ice4_stepping_soft.py:29 | right after it, the limiter's soft stage cuts the step exactly when `dt > delta_t_soft`, and cuts it to `delta_t_soft` |
| `RainIceStart.RainIceInit` | src/ice3_gt4py/stencils/rain_ice_start.py:65-77 | `ldmicro` holds exactly when some condensed species exceeds its threshold; `ls_fact * divider = LSTT + (CPV-CI)(th*exn - TT)` and `lv_fact * divider = LVTT + (CPV-CL)(th*exn - TT)`; only these three fields are written |
| `RainIceStart.InitialValuesSaving` | src/ice3_gt4py/stencils/rain_ice_start.py:105-117 | afterwards the saved `wr_*` equal the current `th` and mixing ratios; `rainfr` is 0; `evap3d` is 0 under `LWARM` and unchanged otherwise; nothing else is written |
| `RainIceStart.ApplyRainIceInit` | src/ice3_gt4py/stencils/rain_ice_start.py:20-77 | every point holds `RainIceInit` of its old value |
| `RainIceStart.ApplyInitialValuesSaving` | src/ice3_gt4py/stencils/rain_ice_start.py:84-117 | every point holds `InitialValuesSaving` of its old value |
| `RainIceStart.DividerAtLeastCpd` | src/ice3_gt4py/stencils/rain_ice_start.py:66 | with non-negative mixing ratios and heat capacities the divider is at least `CPD` |
| `RainIceStart.LdmicroIgnoresVapourAndTemperature` | src/ice3_gt4py/stencils/rain_ice_start.py:71-77 | `ldmicro` does not depend on `rv_t`, `th_t` or `exn` |
| `RainIceStart.NoCondensateMeansInactive` | src/ice3_gt4py/stencils/rain_ice_start.py:71-77 | a point with every species at or below its threshold is inactive |
| `TotalTendencies.TotalTendencies` | src/ice3_gt4py/stencils/rain_ice_total_tendencies.py:71-93 | `wr_x' = (wr_x - x_t) * INV_TSTEP`; `wr_th'` is the latent heat of the new liquid and ice tendencies; `ths` grows by `wr_th' + rvheni * ls_fact`; total water is conserved (the sources together grow by the sum of the tendencies); `rvheni` moves once from vapour to ice; mixing ratios, `ls_fact`, `lv_fact` and `exnref` are not written |
| `TotalTendencies.ApplyTotalTendencies` | src/ice3_gt4py/stencils/rain_ice_total_tendencies.py:14-93 | every point holds `TotalTendencies` of its old value |
| `TotalTendencies.SavedThetaIgnored` | src/ice3_gt4py/stencils/rain_ice_total_tendencies.py:84 | the incoming `wr_th` does not influence the result |
| `TotalTendencies.RoundTripAfterSaving` | src/ice3_gt4py/stencils/rain_ice_total_tendencies.py:76-93 | right after the state is saved every tendency is 0 and the sources move only by the `rvheni` terms |
| `Sedimentation.UpperAirFlux` | src/ice3_gt4py/stencils/upwind_sedimentation.py:111-117 | `flux * dt = wsed * max_tstep`, so the flux is `wsed` when `max_tstep == dt` |
| `Sedimentation.MixingRatioUpdate` | src/ice3_gt4py/stencils/upwind_sedimentation.py:121-147 | the tendency grows by `max_tstep * oorhodz * (wsed[k+1] - wsed[k]) / dt`; equal fluxes leave it unchanged |
| `Sedimentation.MaximumTimeStep` | src/ice3_gt4py/stencils/upwind_sedimentation.py:151-173 | never above `max_tstep`; unchanged when `r <= rtmin`, `wsed <= 1e-20` or no time remains; otherwise the CFL bound `t * wsed <= split_maxcfl * rhodref * r * dz` holds, and `t` is `max_tstep` or reaches that bound, that is, the minimum |
| `Sedimentation.InstantPrecipitation` | src/ice3_gt4py/stencils/upwind_sedimentation.py:177-183 | the ground precipitation times `rholw` is the flux `wsed * max_tstep / dt` |
| `Sedimentation.MaximumTimeStepIdempotent` | src/ice3_gt4py/stencils/upwind_sedimentation.py:162-171 | feeding the bound back in as `max_tstep` returns it unchanged |
| `Sedimentation.ColumnGainTelescopes` | src/ice3_gt4py/stencils/upwind_sedimentation.py:143-145 | summed over the levels from `k` up, the mass gained is `max_tstep * (flux in at the top - flux out of level k)` |
| `Sedimentation.LevelGain` | src/ice3_gt4py/stencils/upwind_sedimentation.py:143-147 | converted back to mass per unit area, one level's tendency change over `dt` is `max_tstep` times the flux entering from above minus the flux leaving it |
| `Sedimentation.ColumnLossIsGroundPrecipitation` | src/ice3_gt4py/stencils/upwind_sedimentation.py:177-183 | with nothing entering at the top, the column loses exactly `dt * rholw` times the ground precipitation |
| `LimiterFindings.CoolingCrossingIsMissed` | src/ice3_gt4py/stencils/limiter.py:87-90 | a cooling point that reaches freezing after 1 keeps its step of 10 |
| `LimiterFindings.FreezeLimitIntended` | src/ice3_gt4py/stencils/limiter.py:82-90 | with the guard `abs(theta_a_tnd) > 1e-20`, a positive crossing time bounds the step for either sign of the tendency; the result is 0, the old step or the crossing time, and without a sign change exactly `min(step, crossing time)`, so a positive step stays positive |
| `LimiterFindings.IntendedDiffersOnlyWhenCooling` | src/ice3_gt4py/stencils/limiter.py:87-90 | unless `theta_a_tnd < -1e-20`, the corrected freezing stage equals the stage as written |
| `LimiterFindings.IntendedStepStopsAtFreezing` | src/ice3_gt4py/stencils/limiter.py:87-90 | with the intended guard, no step runs past a time at which `theta + b + a*t` reaches the freezing point |
| `LimiterFindings.IceGuardReadsCloud` | src/ice3_gt4py/stencils/limiter.py:188 | with ice present and no cloud the as-written ice guard fails, and it flips with the cloud mixing ratio alone |
| `LimiterFindings.IceGuardIntendedIgnoresCloud` | src/ice3_gt4py/stencils/limiter.py:188 | the intended ice guard depends on the ice fields only and holds whenever ice is present |
| `LimiterFindings.ThresholdIsNotATime` | src/ice3_gt4py/stencils/limiter.py:133-137 | with tendency 2 and `MRSTEP` 1 the as-written threshold 1 is the time of a change of 2 |
| `LimiterFindings.TimeThresholdIntended` | src/ice3_gt4py/stencils/limiter.py:133-137 | at the divided threshold the species has changed by exactly the signed `MRSTEP` since the last recomputation |
| `LimiterFindings.CloudChangeIsIgnored` | src/ice3_gt4py/stencils/limiter.py:153-154 | a cloud change of 1 above `MRSTEP` 0.5 does not trigger the fallback |
| `LimiterFindings.RBMaxIntended` | src/ice3_gt4py/stencils/limiter.py:153-154 | the maximum over all five species is at least each `|r_b|` and equals one of them |
| `LimiterFindings.IntendedFallbackCatchesEverySpecies` | src/ice3_gt4py/stencils/limiter.py:237-240 | with the intended maximum, any species whose change exceeds `MRSTEP` stops the point |

## Left out

- Limiter.LimiterTrace: "never raises the step" is stated as `dt' <= max(dt, 0)`. The freezing stage and the `r_b_max` fallback set the step to 0, which raises a negative step.
- Limiter.LimiterTrace: the stages after the species limiters are proved never to lengthen the step. The five `mixing_ratio_step_limiter` calls return an unconstrained value, because that helper is not part of this model.
- Limiter.StepLimiters: says nothing about the returned step, for the same reason.
- `mixing_ratio_step_limiter` is neither imported nor defined by limiter.py (its imports, lines 4-8, bring in only `sign`), so the five calls at limiter.py:95-117 name nothing in the file as written. The model supplies it as the uninterpreted `Helpers.stepLimiter`, called with the argument order of those calls: `(a_tnd, b, r, delta_t_micro, rtmin, tiny)`.
- Limiter.ApplyLimiter: the grid is limited into a new sequence, which one parallel assignment then writes back. Each point is not updated as it is visited. Every point depends only on its own old value, so the result is the same.
- Sedimentation.MixingRatioUpdate: the update of `r_in` at line 144 is local to the helper and is discarded, so it is not modelled and `r_in` is not a parameter.
- The body of the `upstream_sedimentation` stencil (upwind_sedimentation.py:69-107): the fall-speed formula with fractional powers, the statements outside any computation block, and the updates of `remaining_time` and the outputs. The column lemmas state the conservation that its per-level updates are built for.
- The rate kernels (`ice4_fast_rs.py`, `ice4_warm.py`, `ice4_slow.py`, `ice4_fast_ri.py`) and the special functions (`gamma_inc.py`, `erf.py`): floating-point numerics outside the bookkeeping.
- The sub-cycling driver loop and its iteration cap are not part of this model; only their building blocks are.
- The `ice_adjust` driver, the storage set-up (`state.py`), NetCDF I/O (`reader.py`) and the test harnesses are glue and I/O.
- The semantics of `mixing_ratio_step_limiter`, `sign`, `cph`, `theta2temperature` and the two latent-heat functions are not modelled. Every property holds for every choice of them that meets the stated `requires`: `cph` nonzero for `Stepping.Heat` and `Stepping.ApplyHeat`, and `sign(1, 2) == 1` for `LimiterFindings.ThresholdIsNotATime`.
- Floating point: everything is on exact reals. Divisions that the code performs unguarded have their divisor required non-zero: `exn`, `cph`, `divider`, `dt`, `rholw`, and `rho * dz` in the column lemmas. Floating point would give an infinity or NaN there. Division by `theta_a_tnd` happens only under its guard.
- GT4Py scheduling: the limiter, timing, start and end stencils are point-wise, so the order of points is immaterial. The limiter temporaries (`theta_tt`, `delta_t_tmp`, `time_threshold_tmp`, `r_b_max`) are local values, not grid fields.

## Findings

| source | as written | input that shows it | evidently intended | confidence | as-written member | corrected member |
|---|---|---|---|---|---|---|
| src/ice3_gt4py/stencils/limiter.py:87 | `abs(theta_a_tnd > 1e-20)` takes abs of a comparison, so only warming tendencies are tested | `theta = 274`, `TT/exn = 273`, `theta_b = 0`, `theta_a_tnd = -1`, step 10: crossing at 1, step stays 10 | `abs(theta_a_tnd) > 1e-20`, so a crossing in either direction bounds the step | high, not executed | `LimiterFindings.CoolingCrossingIsMissed` | `LimiterFindings.FreezeLimitIntended` |
| src/ice3_gt4py/stencils/limiter.py:188 | the ice guard tests `rc_t > I_RTMIN` | `rc_t = 0`, `ri_t = 1`, `I_RTMIN = 0`, `ri_a_tnd = -1`: guard false, ice `MRSTEP` limit skipped | `ri_t > I_RTMIN`, like every other species | high, not executed | `LimiterFindings.IceGuardReadsCloud` | `LimiterFindings.IceGuardIntendedIgnoresCloud` |
| src/ice3_gt4py/stencils/limiter.py:134 | the threshold time `sign(1,a)*MRSTEP + r_0r - r - b` is not divided by `a` (same at 159, 179, 199, 219) | `r = r_0r = b = 0`, `a = 2`, `MRSTEP = 1`: threshold 1, change at that time 2 | divide by `a`, so that the change at the threshold is exactly the signed `MRSTEP` | high, not executed | `LimiterFindings.ThresholdIsNotATime` | `LimiterFindings.TimeThresholdIntended` |
| src/ice3_gt4py/stencils/limiter.py:154 | `r_b_max` starts from `abs(rr_b)`, so `rc_b` is never included | `rc_b = 1`, all other `b = 0`, `MRSTEP = 0.5`: no fallback | start from `abs(rc_b)` | medium, not executed | `LimiterFindings.CloudChangeIsIgnored` | `LimiterFindings.RBMaxIntended` |

The limiter stencil in module `Limiter` keeps the code as written, since the
bookkeeping it models is that code. The corrected stages, with their
intended properties, are in module `LimiterFindings`.
