/** The storage one grid point holds for the ICE4 stepping stencils, the
    configuration constants ("externals") they read, and the helpers they call
    from files this model does not cover. */
module Fields {

  /** The tendency magnitude below which the stencils treat a tendency as zero (1e-20). */
  const Tiny: real := 1.0e-20

  function Min(a: real, b: real): real { if a <= b then a else b }

  function Max(a: real, b: real): real { if a >= b then a else b }

  function Abs(x: real): real { if x < 0.0 then -x else x }

  /** The fields one condensed species (cloud droplets, rain, ice, snow or
      graupel) has at one grid point. */
  datatype Species = Species(
    mr: real,      // r*_t: mixing ratio at the current time
    mr0: real,     // r*_0r_t: mixing ratio when the tendencies were last fully recomputed
    aTnd: real,    // r*_a_tnd: tendency applied proportionally to the sub-step
    extTnd: real,  // r*_ext_tnd: externally supplied tendency
    b: real,       // r*_b: change applied independently of the sub-step length
    wr: real,      // wr_*: saved initial value, then the total tendency
    source: real   // r*s: source term handed back to the caller
  )

  /** One grid point of every field the stepping stencils read or write. */
  datatype Cell = Cell(
    exn: real,          // Exner function
    exnref: real,       // reference Exner function
    th: real,           // th_t (theta_t in the limiter): potential temperature
    rv: real,           // rv_t: vapour mixing ratio
    cloud: Species,
    rain: Species,
    ice: Species,
    snow: Species,
    graupel: Species,
    t: real,            // temperature
    lsFact: real,       // sublimation latent heat over heat capacity
    lvFact: real,       // vaporisation latent heat over heat capacity
    ldmicro: bool,      // the point needs microphysics at all
    ldcompute: bool,    // the point still sub-cycles
    tMicro: real,       // time already integrated in the outer step
    deltaTMicro: real,  // length of the current sub-step
    tSoft: real,        // start of the current soft-recompute window
    deltaTSoft: real,   // length of the soft-recompute window
    thATnd: real,       // theta_a_tnd
    thB: real,          // theta_b
    thExtTnd: real,     // theta_ext_tnd
    wrTh: real,         // wr_th: saved potential temperature, then its tendency
    wrV: real,          // wr_v: saved vapour, then its tendency
    ths: real,          // potential temperature source
    rvs: real,          // vapour source
    rvheni: real,       // vapour taken by heterogeneous ice nucleation
    evap3d: real,       // rain evaporation diagnostic
    rainfr: real        // rain fraction
  )

  /** The externals the stencils are compiled with. */
  datatype Config = Config(
    tstep: real,     // TSTEP: outer time step
    tstepTs: real,   // TSTEP_TS: soft-recompute interval, 0 disables it
    invTstep: real,  // INV_TSTEP
    mrstep: real,    // MRSTEP: largest allowed mixing-ratio change per sub-step
    cRtmin: real,
    rRtmin: real,
    iRtmin: real,
    sRtmin: real,
    gRtmin: real,
    mnhTiny: real,   // MNH_TINY
    tt: real,        // TT: triple-point temperature
    cpd: real,       // heat capacity of dry air
    cpv: real,       // heat capacity of vapour
    cl: real,        // heat capacity of liquid water
    ci: real,        // heat capacity of ice
    lstt: real,      // sublimation latent heat at TT
    lvtt: real,      // vaporisation latent heat at TT
    lwarm: bool      // LWARM
  )

  /** Functions the stencils call from outside this model: all imported
      except mixing_ratio_step_limiter, which limiter.py calls without
      importing or defining it. Their semantics are not modelled: every
      property proved holds for all of them that meet the members' stated
      requires (cph nonzero for the temperature stencil, one value of sign
      for one counterexample). */
  datatype Helpers = Helpers(
    // mixing_ratio_step_limiter(a_tnd, b, r, delta_t_micro, rtmin, tiny)
    stepLimiter: (real, real, real, real, real, real) -> real,
    // sign(a, b)
    sign: (real, real) -> real,
    // cph(rv, rc, ri, rr, rs, rg)
    cph: (real, real, real, real, real, real) -> real,
    // theta2temperature(theta, exn)
    theta2temperature: (real, real) -> real,
    sublimationLatentHeat: real -> real,
    vaporisationLatentHeat: real -> real
  )
}
