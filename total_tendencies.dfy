/** The end of the microphysics step (rain_ice_total_tendencies.py): the
    change of every species since the saved initial state becomes a
    tendency, the potential temperature tendency follows from the latent
    heats, and everything is added to the sources together with the
    heterogeneous nucleation term. */
module TotalTendencies {
  import opened Fields
  import RainIceStart

  /** rain_ice_total_tendencies at one point. */
  function TotalTendencies(c: Cell, cfg: Config): (r: Cell)
    // every species tendency is the saved value minus the current one, per unit time
    ensures r.wrV == (c.wrV - c.rv) * cfg.invTstep
    ensures r.cloud.wr == (c.cloud.wr - c.cloud.mr) * cfg.invTstep
    ensures r.rain.wr == (c.rain.wr - c.rain.mr) * cfg.invTstep
    ensures r.ice.wr == (c.ice.wr - c.ice.mr) * cfg.invTstep
    ensures r.snow.wr == (c.snow.wr - c.snow.mr) * cfg.invTstep
    ensures r.graupel.wr == (c.graupel.wr - c.graupel.mr) * cfg.invTstep
    // the theta tendency is the latent heat of the new liquid and ice tendencies
    ensures r.wrTh == (r.cloud.wr + r.rain.wr) * c.lvFact
                      + (r.ice.wr + r.snow.wr + r.graupel.wr) * c.lsFact
    ensures r.ths == c.ths + r.wrTh + c.rvheni * c.lsFact
    // total water: the sources together grow by the sum of the tendencies
    ensures (r.rvs - c.rvs) + (r.cloud.source - c.cloud.source) + (r.rain.source - c.rain.source)
            + (r.ice.source - c.ice.source) + (r.snow.source - c.snow.source)
            + (r.graupel.source - c.graupel.source)
            == r.wrV + r.cloud.wr + r.rain.wr + r.ice.wr + r.snow.wr + r.graupel.wr
    // nucleation moves rvheni from vapour to ice, once
    ensures r.rvs == c.rvs + r.wrV - c.rvheni && r.ice.source == c.ice.source + r.ice.wr + c.rvheni
    ensures r.cloud.source == c.cloud.source + r.cloud.wr && r.rain.source == c.rain.source + r.rain.wr
    ensures r.snow.source == c.snow.source + r.snow.wr && r.graupel.source == c.graupel.source + r.graupel.wr
    // only the saved fields and the sources are written
    ensures r == c.(wrTh := r.wrTh, wrV := r.wrV, ths := r.ths, rvs := r.rvs,
                    cloud := c.cloud.(wr := r.cloud.wr, source := r.cloud.source),
                    rain := c.rain.(wr := r.rain.wr, source := r.rain.source),
                    ice := c.ice.(wr := r.ice.wr, source := r.ice.source),
                    snow := c.snow.(wr := r.snow.wr, source := r.snow.source),
                    graupel := c.graupel.(wr := r.graupel.wr, source := r.graupel.source))
  {
    var wrV := (c.wrV - c.rv) * cfg.invTstep;
    var wrC := (c.cloud.wr - c.cloud.mr) * cfg.invTstep;
    var wrR := (c.rain.wr - c.rain.mr) * cfg.invTstep;
    var wrI := (c.ice.wr - c.ice.mr) * cfg.invTstep;
    var wrS := (c.snow.wr - c.snow.mr) * cfg.invTstep;
    var wrG := (c.graupel.wr - c.graupel.mr) * cfg.invTstep;
    var wrTh := (wrC + wrR) * c.lvFact + (wrI + wrS + wrG) * c.lsFact;
    c.(wrV := wrV, wrTh := wrTh,
       ths := c.ths + wrTh + c.rvheni * c.lsFact,
       rvs := c.rvs + wrV - c.rvheni,
       cloud := c.cloud.(wr := wrC, source := c.cloud.source + wrC),
       rain := c.rain.(wr := wrR, source := c.rain.source + wrR),
       ice := c.ice.(wr := wrI, source := c.ice.source + wrI + c.rvheni),
       snow := c.snow.(wr := wrS, source := c.snow.source + wrS),
       graupel := c.graupel.(wr := wrG, source := c.graupel.source + wrG))
  }

  /** The stencil over the grid. */
  method ApplyTotalTendencies(cells: array<Cell>, cfg: Config)
    modifies cells
    ensures forall j :: 0 <= j < cells.Length ==> cells[j] == TotalTendencies(old(cells[j]), cfg)
  {
    for i := 0 to cells.Length
      invariant forall j :: 0 <= j < i ==> cells[j] == TotalTendencies(old(cells[j]), cfg)
      invariant forall j :: i <= j < cells.Length ==> cells[j] == old(cells[j])
    {
      cells[i] := TotalTendencies(cells[i], cfg);
    }
  }

  /** The incoming wr_th is overwritten without being read. */
  lemma SavedThetaIgnored(c: Cell, cfg: Config, wrTh: real)
    ensures TotalTendencies(c.(wrTh := wrTh), cfg) == TotalTendencies(c, cfg)
  {
    var r1, r2 := TotalTendencies(c.(wrTh := wrTh), cfg), TotalTendencies(c, cfg);
    assert r1.cloud == r2.cloud && r1.rain == r2.rain && r1.ice == r2.ice;
    assert r1.snow == r2.snow && r1.graupel == r2.graupel;
  }

  /** Round trip: when nothing changed since the state was saved, every
      tendency is zero and the sources move only by the nucleation term. */
  lemma RoundTripAfterSaving(c: Cell, cfg: Config)
    ensures var r := TotalTendencies(RainIceStart.InitialValuesSaving(c, cfg), cfg);
            r.wrV == 0.0 && r.cloud.wr == 0.0 && r.rain.wr == 0.0 && r.ice.wr == 0.0
            && r.snow.wr == 0.0 && r.graupel.wr == 0.0 && r.wrTh == 0.0
            && r.ths == c.ths + c.rvheni * c.lsFact
            && r.rvs == c.rvs - c.rvheni && r.ice.source == c.ice.source + c.rvheni
            && r.cloud.source == c.cloud.source && r.rain.source == c.rain.source
            && r.snow.source == c.snow.source && r.graupel.source == c.graupel.source
  {
  }
}
