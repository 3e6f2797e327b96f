/** The timing stencils of the sub-cycling loop (ice4_stepping.py): the
    initial integrated time, the compute mask derived from it, and the
    temperature and latent-heat factors recomputed from the current state. */
module Stepping {
  import opened Fields
  import Limiter

  /** ice4_stepping_tmicro_init at one point: an active point has integrated
      nothing yet, an inactive one is already at the end of the outer step. */
  function TMicroInit(c: Cell, cfg: Config): Cell
  {
    c.(tMicro := if c.ldmicro then 0.0 else cfg.tstep)
  }

  /** ice4_update_ldcompute at one point: the point keeps sub-cycling while
      its integrated time is short of TSTEP. */
  function UpdateLdcompute(c: Cell, cfg: Config): Cell
  {
    c.(ldcompute := c.tMicro < cfg.tstep)
  }

  /** The specific heat cph(rv, rc, ri, rr, rs, rg) of a point; note the
      argument order of the helper (ice before rain). */
  function SpecificHeat(c: Cell, h: Helpers): real
  {
    h.cph(c.rv, c.cloud.mr, c.ice.mr, c.rain.mr, c.snow.mr, c.graupel.mr)
  }

  /** ice4_stepping_heat at one point: the temperature and the two latent
      heats over the specific heat. Only t, ls_fact and lv_fact change. */
  function Heat(c: Cell, h: Helpers): (r: Cell)
    requires SpecificHeat(c, h) != 0.0
    ensures r.t == h.theta2temperature(c.th, c.exn)
    ensures r.lsFact * SpecificHeat(c, h) == h.sublimationLatentHeat(r.t)
    ensures r.lvFact * SpecificHeat(c, h) == h.vaporisationLatentHeat(r.t)
    ensures r == c.(t := r.t, lsFact := r.lsFact, lvFact := r.lvFact)
  {
    var specificHeat := SpecificHeat(c, h);
    var t := h.theta2temperature(c.th, c.exn);
    c.(t := t,
       lsFact := h.sublimationLatentHeat(t) / specificHeat,
       lvFact := h.vaporisationLatentHeat(t) / specificHeat)
  }

  /** The tmicro_init stencil over the grid: only t_micro is written. */
  method ApplyTMicroInit(cells: array<Cell>, cfg: Config)
    modifies cells
    ensures forall j :: 0 <= j < cells.Length ==>
              cells[j].tMicro == (if old(cells[j]).ldmicro then 0.0 else cfg.tstep) &&
              cells[j] == old(cells[j]).(tMicro := cells[j].tMicro)
  {
    for i := 0 to cells.Length
      invariant forall j :: 0 <= j < i ==> cells[j] == TMicroInit(old(cells[j]), cfg)
      invariant forall j :: i <= j < cells.Length ==> cells[j] == old(cells[j])
    {
      cells[i] := TMicroInit(cells[i], cfg);
    }
  }

  /** The update_ldcompute stencil over the grid: only ldcompute is written,
      and it holds exactly where t_micro < TSTEP. */
  method ApplyUpdateLdcompute(cells: array<Cell>, cfg: Config)
    modifies cells
    ensures forall j :: 0 <= j < cells.Length ==>
              (cells[j].ldcompute <==> old(cells[j]).tMicro < cfg.tstep) &&
              cells[j] == old(cells[j]).(ldcompute := cells[j].ldcompute)
  {
    for i := 0 to cells.Length
      invariant forall j :: 0 <= j < i ==> cells[j] == UpdateLdcompute(old(cells[j]), cfg)
      invariant forall j :: i <= j < cells.Length ==> cells[j] == old(cells[j])
    {
      cells[i] := UpdateLdcompute(cells[i], cfg);
    }
  }

  /** The heat stencil over the grid. */
  method ApplyHeat(cells: array<Cell>, h: Helpers)
    requires forall j :: 0 <= j < cells.Length ==> SpecificHeat(cells[j], h) != 0.0
    modifies cells
    ensures forall j :: 0 <= j < cells.Length ==> cells[j] == Heat(old(cells[j]), h)
  {
    for i := 0 to cells.Length
      invariant forall j :: 0 <= j < i ==> cells[j] == Heat(old(cells[j]), h)
      invariant forall j :: i <= j < cells.Length ==> cells[j] == old(cells[j])
    {
      cells[i] := Heat(cells[i], h);
    }
  }

  /** With a positive outer step, initialising t_micro and then deriving the
      compute mask gives back the activity mask: exactly the active points
      sub-cycle. */
  lemma InitThenUpdateGivesLdmicro(c: Cell, cfg: Config)
    requires cfg.tstep > 0.0
    ensures UpdateLdcompute(TMicroInit(c, cfg), cfg).ldcompute == c.ldmicro
    ensures UpdateLdcompute(TMicroInit(c, cfg), cfg).tMicro == TMicroInit(c, cfg).tMicro
  {
  }

  /** Deriving the compute mask twice is the same as deriving it once. */
  lemma UpdateLdcomputeIdempotent(c: Cell, cfg: Config)
    ensures UpdateLdcompute(UpdateLdcompute(c, cfg), cfg) == UpdateLdcompute(c, cfg)
  {
  }

  /** A point whose integrated time has reached TSTEP gets a zero candidate
      step from the limiter and is never switched back on by it. */
  lemma FinishedPointStaysOff(c: Cell, cfg: Config, h: Helpers)
    requires c.exn != 0.0 && c.tMicro >= cfg.tstep
    ensures Limiter.Candidate(UpdateLdcompute(c, cfg), cfg) == Limiter.Step(0.0, false)
    ensures !Limiter.Limited(UpdateLdcompute(c, cfg), cfg, h).ldcompute
  {
  }
}
