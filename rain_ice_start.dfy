/** The start of the microphysics step (rain_ice_start.py): the activity mask
    and latent-heat factors (rain_ice_init), and the saving of the initial
    state from which the total tendencies are later derived
    (initial_values_saving). */
module RainIceStart {
  import opened Fields

  /** The heat capacity of the moist air at a point (divider). */
  function Divider(c: Cell, cfg: Config): real
  {
    cfg.cpd + cfg.cpv * c.rv + cfg.cl * (c.cloud.mr + c.rain.mr)
      + cfg.ci * (c.ice.mr + c.snow.mr + c.graupel.mr)
  }

  /** The condensed mixing ratios of a point, cloud to graupel. */
  function Condensates(c: Cell): seq<real>
  {
    [c.cloud.mr, c.rain.mr, c.ice.mr, c.snow.mr, c.graupel.mr]
  }

  /** The per-species thresholds, in the same order. */
  function Thresholds(cfg: Config): seq<real>
  {
    [cfg.cRtmin, cfg.rRtmin, cfg.iRtmin, cfg.sRtmin, cfg.gRtmin]
  }

  /** A point needs microphysics when some condensed species is above its
      threshold. */
  predicate HasCondensate(c: Cell, cfg: Config)
  {
    exists k :: 0 <= k < 5 && Condensates(c)[k] > Thresholds(cfg)[k]
  }

  /** rain_ice_init at one point. The latent heats are linear in the
      temperature th * exn, and each factor is its latent heat over the
      moist heat capacity; the mask holds where some species is present.
      Only ldmicro, ls_fact and lv_fact are written: the temperature is a
      temporary of the stencil. */
  function RainIceInit(c: Cell, cfg: Config): (r: Cell)
    requires Divider(c, cfg) != 0.0
    ensures r.ldmicro <==> HasCondensate(c, cfg)
    ensures r.lsFact * Divider(c, cfg) == cfg.lstt + (cfg.cpv - cfg.ci) * (c.th * c.exn - cfg.tt)
    ensures r.lvFact * Divider(c, cfg) == cfg.lvtt + (cfg.cpv - cfg.cl) * (c.th * c.exn - cfg.tt)
    ensures r == c.(ldmicro := r.ldmicro, lsFact := r.lsFact, lvFact := r.lvFact)
  {
    var divider := Divider(c, cfg);
    var t := c.th * c.exn;
    var ldmicro := c.cloud.mr > cfg.cRtmin || c.rain.mr > cfg.rRtmin || c.ice.mr > cfg.iRtmin
                   || c.snow.mr > cfg.sRtmin || c.graupel.mr > cfg.gRtmin;
    assert ldmicro ==> HasCondensate(c, cfg) by {
      if ldmicro {
        var k := if c.cloud.mr > cfg.cRtmin then 0 else if c.rain.mr > cfg.rRtmin then 1
                 else if c.ice.mr > cfg.iRtmin then 2 else if c.snow.mr > cfg.sRtmin then 3 else 4;
        assert Condensates(c)[k] > Thresholds(cfg)[k];
      }
    }
    c.(ldmicro := ldmicro,
       lsFact := (cfg.lstt + (cfg.cpv - cfg.ci) * (t - cfg.tt)) / divider,
       lvFact := (cfg.lvtt + (cfg.cpv - cfg.cl) * (t - cfg.tt)) / divider)
  }

  /** The saved state equals the current one: th and the six mixing ratios. */
  predicate SavedIsCurrent(c: Cell)
  {
    c.wrTh == c.th && c.wrV == c.rv && c.cloud.wr == c.cloud.mr && c.rain.wr == c.rain.mr
    && c.ice.wr == c.ice.mr && c.snow.wr == c.snow.mr && c.graupel.wr == c.graupel.mr
  }

  /** initial_values_saving at one point: the state is saved, the rain
      fraction reset, and with LWARM the evaporation diagnostic reset. */
  function InitialValuesSaving(c: Cell, cfg: Config): (r: Cell)
    ensures SavedIsCurrent(r)
    ensures r.rainfr == 0.0
    ensures r.evap3d == (if cfg.lwarm then 0.0 else c.evap3d)
    ensures r == c.(wrTh := r.wrTh, wrV := r.wrV,
                    cloud := c.cloud.(wr := r.cloud.wr), rain := c.rain.(wr := r.rain.wr),
                    ice := c.ice.(wr := r.ice.wr), snow := c.snow.(wr := r.snow.wr),
                    graupel := c.graupel.(wr := r.graupel.wr),
                    evap3d := r.evap3d, rainfr := r.rainfr)
  {
    var saved := c.(wrTh := c.th, wrV := c.rv,
                    cloud := c.cloud.(wr := c.cloud.mr), rain := c.rain.(wr := c.rain.mr),
                    ice := c.ice.(wr := c.ice.mr), snow := c.snow.(wr := c.snow.mr),
                    graupel := c.graupel.(wr := c.graupel.mr));
    var warm := if cfg.lwarm then saved.(evap3d := 0.0) else saved;
    warm.(rainfr := 0.0)
  }

  /** The rain_ice_init stencil over the grid. */
  method ApplyRainIceInit(cells: array<Cell>, cfg: Config)
    requires forall j :: 0 <= j < cells.Length ==> Divider(cells[j], cfg) != 0.0
    modifies cells
    ensures forall j :: 0 <= j < cells.Length ==> cells[j] == RainIceInit(old(cells[j]), cfg)
  {
    for i := 0 to cells.Length
      invariant forall j :: 0 <= j < i ==> cells[j] == RainIceInit(old(cells[j]), cfg)
      invariant forall j :: i <= j < cells.Length ==> cells[j] == old(cells[j])
    {
      cells[i] := RainIceInit(cells[i], cfg);
    }
  }

  /** The initial_values_saving stencil over the grid. */
  method ApplyInitialValuesSaving(cells: array<Cell>, cfg: Config)
    modifies cells
    ensures forall j :: 0 <= j < cells.Length ==> cells[j] == InitialValuesSaving(old(cells[j]), cfg)
  {
    for i := 0 to cells.Length
      invariant forall j :: 0 <= j < i ==> cells[j] == InitialValuesSaving(old(cells[j]), cfg)
      invariant forall j :: i <= j < cells.Length ==> cells[j] == old(cells[j])
    {
      cells[i] := InitialValuesSaving(cells[i], cfg);
    }
  }

  /** With non-negative mixing ratios and heat capacities, the moist heat
      capacity is at least that of dry air, so the factors are well defined
      whenever CPD > 0. */
  lemma DividerAtLeastCpd(c: Cell, cfg: Config)
    requires cfg.cpv >= 0.0 && cfg.cl >= 0.0 && cfg.ci >= 0.0
    requires c.rv >= 0.0 && c.cloud.mr >= 0.0 && c.rain.mr >= 0.0
    requires c.ice.mr >= 0.0 && c.snow.mr >= 0.0 && c.graupel.mr >= 0.0
    ensures Divider(c, cfg) >= cfg.cpd
  {
    assert cfg.cpv * c.rv >= 0.0;
    assert cfg.cl * (c.cloud.mr + c.rain.mr) >= 0.0;
    assert cfg.ci * (c.ice.mr + c.snow.mr + c.graupel.mr) >= 0.0;
  }

  /** The mask depends on the condensed species only: vapour, potential
      temperature and the Exner function do not change it. */
  lemma LdmicroIgnoresVapourAndTemperature(c: Cell, cfg: Config, rv: real, th: real, exn: real)
    requires Divider(c, cfg) != 0.0 && Divider(c.(rv := rv, th := th, exn := exn), cfg) != 0.0
    ensures RainIceInit(c.(rv := rv, th := th, exn := exn), cfg).ldmicro == RainIceInit(c, cfg).ldmicro
  {
  }

  /** A point with every species at or below its threshold is inactive. */
  lemma NoCondensateMeansInactive(c: Cell, cfg: Config)
    requires Divider(c, cfg) != 0.0
    requires forall k :: 0 <= k < 5 ==> Condensates(c)[k] <= Thresholds(cfg)[k]
    ensures !RainIceInit(c, cfg).ldmicro
  {
  }
}
