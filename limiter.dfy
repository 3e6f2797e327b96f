/** The limiter stencil: it folds the external tendencies into the tendencies,
    sets the candidate sub-step to the time left in the outer step, and then
    lets a fixed sequence of stages shrink it and clear the compute flag. */
module Limiter {
  import opened Fields

  /** The sub-step length and the compute flag of one point between two stages. */
  datatype Step = Step(dt: real, ldcompute: bool)

  /** A stage never lengthens the step (a stage that sets it to 0 only lifts a
      negative step) and never sets the compute flag again. */
  predicate Shrinks(prev: Step, next: Step)
  {
    next.dt <= Max(prev.dt, 0.0) && (next.ldcompute ==> prev.ldcompute)
  }

  function Fold(s: Species): Species
  {
    s.(aTnd := s.aTnd + s.extTnd)
  }

  /** The first stage: every tendency receives its external tendency. */
  function FoldExternal(c: Cell): Cell
  {
    c.(thATnd := c.thATnd + c.thExtTnd,
       cloud := Fold(c.cloud), rain := Fold(c.rain), ice := Fold(c.ice),
       snow := Fold(c.snow), graupel := Fold(c.graupel))
  }

  function Candidate(c: Cell, cfg: Config): Step
  {
    Step(if c.ldcompute then cfg.tstep - c.tMicro else 0.0, c.ldcompute)
  }

  /** The time at which theta + b + a * t reaches the freezing point thetaTt. */
  function CrossingTime(th: real, thB: real, thA: real, thetaTt: real): real
    requires thA != 0.0
  {
    (thetaTt - thB - th) / thA
  }

  /** The freezing-point stage. The source guards the crossing time with
      abs(theta_a_tnd > 1e-20): abs of a comparison, which is non-zero exactly
      when theta_a_tnd > 1e-20, so only a warming tendency is tested. */
  function FreezeLimit(s: Step, th: real, thB: real, thA: real, thetaTt: real): (r: Step)
    ensures Shrinks(s, r) && r.ldcompute == s.ldcompute
    ensures (th - thetaTt) * (th + thB - thetaTt) < 0.0 ==> r.dt == 0.0
    ensures thA > Tiny && CrossingTime(th, thB, thA, thetaTt) > 0.0 ==>
              r.dt <= CrossingTime(th, thB, thA, thetaTt)
    ensures !(thA > Tiny && CrossingTime(th, thB, thA, thetaTt) > 0.0) ==>
              r.dt == (if (th - thetaTt) * (th + thB - thetaTt) < 0.0 then 0.0 else s.dt)
    ensures r.dt == 0.0 || r.dt == s.dt || (thA > Tiny && r.dt == CrossingTime(th, thB, thA, thetaTt))
    // without a sign change the step is min(step, crossing time), so a
    // positive step stays positive
    ensures thA > Tiny && CrossingTime(th, thB, thA, thetaTt) > 0.0
            && (th - thetaTt) * (th + thB - thetaTt) >= 0.0 ==>
              r.dt <= s.dt && (r.dt == s.dt || r.dt == CrossingTime(th, thB, thA, thetaTt))
    ensures s.dt > 0.0 && (th - thetaTt) * (th + thB - thetaTt) >= 0.0 ==> r.dt > 0.0
  {
    var dt0 := if (th - thetaTt) * (th + thB - thetaTt) < 0.0 then 0.0 else s.dt;
    if thA > Tiny && CrossingTime(th, thB, thA, thetaTt) > 0.0 then
      Step(Min(dt0, CrossingTime(th, thB, thA, thetaTt)), s.ldcompute)
    else
      Step(dt0, s.ldcompute)
  }

  /** The five calls to mixing_ratio_step_limiter, cloud to graupel; the
      helper is not modelled, so the step after them is whatever it returns. */
  function StepLimiters(s: Step, c: Cell, cfg: Config, h: Helpers): (r: Step)
    ensures r.ldcompute == s.ldcompute
  {
    var dtC := h.stepLimiter(c.cloud.aTnd, c.cloud.b, c.cloud.mr, s.dt, cfg.cRtmin, cfg.mnhTiny);
    var dtR := h.stepLimiter(c.rain.aTnd, c.rain.b, c.rain.mr, dtC, cfg.rRtmin, cfg.mnhTiny);
    var dtI := h.stepLimiter(c.ice.aTnd, c.ice.b, c.ice.mr, dtR, cfg.iRtmin, cfg.mnhTiny);
    var dtS := h.stepLimiter(c.snow.aTnd, c.snow.b, c.snow.mr, dtI, cfg.sRtmin, cfg.mnhTiny);
    var dtG := h.stepLimiter(c.graupel.aTnd, c.graupel.b, c.graupel.mr, dtS, cfg.gRtmin, cfg.mnhTiny);
    Step(dtG, s.ldcompute)
  }

  /** The end-of-step stage: a point whose step runs past TSTEP stops sub-cycling. */
  function EndOfStep(s: Step, tMicro: real, tstep: real): (r: Step)
    ensures Shrinks(s, r) && r.dt == s.dt
    ensures tMicro + r.dt > tstep ==> !r.ldcompute
    ensures r.ldcompute <==> s.ldcompute && tMicro + s.dt <= tstep
  {
    if tMicro + s.dt > tstep then Step(s.dt, false) else s
  }

  /** The soft-boundary stage: with soft windows enabled, the step is cut so
      that it ends exactly on the boundary of the window, and the flag is
      cleared so that the tendencies are recomputed. */
  function SoftLimit(s: Step, tMicro: real, tSoft: real, deltaTSoft: real, tstepTs: real): (r: Step)
    ensures Shrinks(s, r)
    ensures tstepTs != 0.0 ==> tMicro + r.dt <= tSoft + deltaTSoft
    ensures tstepTs != 0.0 && tMicro + s.dt > tSoft + deltaTSoft ==>
              r.dt == tSoft + deltaTSoft - tMicro && r.dt < s.dt && !r.ldcompute
    ensures !(tstepTs != 0.0 && tMicro + s.dt > tSoft + deltaTSoft) ==> r == s
  {
    if tstepTs != 0.0 && tMicro + s.dt > tSoft + deltaTSoft then
      Step(tSoft + deltaTSoft - tMicro, false)
    else
      s
  }

  /** time_threshold_tmp as the source computes it for one species: the
      signed MRSTEP plus the drift since the last full recomputation, not
      divided by the tendency, and -1 when the tendency is negligible. */
  function TimeThreshold(sp: Species, mrstep: real, h: Helpers): (r: real)
    ensures Abs(sp.aTnd) <= Tiny ==> r == -1.0
  {
    if Abs(sp.aTnd) > Tiny then h.sign(1.0, sp.aTnd) * mrstep + sp.mr0 - sp.mr - sp.b else -1.0
  }

  /** The guard of the MRSTEP stage: the species is present or being produced. */
  predicate SpeciesGuard(sp: Species, rtmin: real)
  {
    sp.mr > rtmin || sp.aTnd > 0.0
  }

  /** The ice guard as the source writes it: it tests the cloud mixing ratio
      against the ice threshold. */
  predicate IceGuard(c: Cell, cfg: Config)
  {
    c.cloud.mr > cfg.iRtmin || c.ice.aTnd > 0.0
  }

  /** The MRSTEP stage of one species: a threshold in [0, dt) becomes the step
      and the flag is cleared. */
  function MrStepLimit(s: Step, threshold: real, guard: bool): (r: Step)
    ensures Shrinks(s, r)
    ensures 0.0 <= threshold < s.dt && guard ==> r == Step(threshold, false)
    ensures !(0.0 <= threshold < s.dt && guard) ==> r == s
  {
    if threshold >= 0.0 && threshold < s.dt && guard then Step(Min(s.dt, threshold), false) else s
  }

  /** r_b_max as the source computes it: it starts from |rr_b| (not |rc_b|)
      and takes the maximum with the rain, ice, snow and graupel changes. */
  function RBMax(c: Cell): (r: real)
    ensures r >= Abs(c.rain.b) && r >= Abs(c.ice.b) && r >= Abs(c.snow.b) && r >= Abs(c.graupel.b)
    ensures r == Abs(c.rain.b) || r == Abs(c.ice.b) || r == Abs(c.snow.b) || r == Abs(c.graupel.b)
  {
    var afterCloud := Abs(c.rain.b);
    var afterRain := Max(afterCloud, Abs(c.rain.b));
    var afterIce := Max(afterRain, Abs(c.ice.b));
    var afterSnow := Max(afterIce, Abs(c.snow.b));
    Max(afterSnow, Abs(c.graupel.b))
  }

  /** The fallback stage: an instantaneous change larger than MRSTEP stops the point. */
  function BMaxFallback(s: Step, rBMax: real, mrstep: real): (r: Step)
    ensures Shrinks(s, r)
    ensures rBMax > mrstep ==> r == Step(0.0, false)
    ensures rBMax <= mrstep ==> r == s
  {
    if rBMax > mrstep then Step(0.0, false) else s
  }

  /** The step and the flag after each stage of the limiter. */
  datatype Trace = Trace(
    candidate: Step, freeze: Step, stepLimiters: Step, endOfStep: Step, soft: Step,
    cloud: Step, rain: Step, ice: Step, snow: Step, graupel: Step, fallback: Step)

  /** The stages of the limiter on a point c whose external tendencies have
      already been folded in. */
  function LimiterTrace(c: Cell, cfg: Config, h: Helpers): (tr: Trace)
    requires c.exn != 0.0
    ensures tr.candidate.dt == (if c.ldcompute then cfg.tstep - c.tMicro else 0.0)
    ensures tr.candidate.ldcompute == c.ldcompute
    ensures Shrinks(tr.candidate, tr.freeze)
    ensures tr.stepLimiters.ldcompute == tr.freeze.ldcompute
    ensures Shrinks(tr.stepLimiters, tr.endOfStep) && Shrinks(tr.endOfStep, tr.soft)
    ensures Shrinks(tr.soft, tr.cloud) && Shrinks(tr.cloud, tr.rain) && Shrinks(tr.rain, tr.ice)
    ensures Shrinks(tr.ice, tr.snow) && Shrinks(tr.snow, tr.graupel) && Shrinks(tr.graupel, tr.fallback)
    ensures c.tMicro + tr.endOfStep.dt > cfg.tstep ==> !tr.endOfStep.ldcompute
    ensures RBMax(c) > cfg.mrstep ==> tr.fallback == Step(0.0, false)
    ensures !c.ldcompute ==> !tr.fallback.ldcompute
  {
    var candidate := Candidate(c, cfg);
    var freeze := FreezeLimit(candidate, c.th, c.thB, c.thATnd, cfg.tt / c.exn);
    var limited := StepLimiters(freeze, c, cfg, h);
    var endOfStep := EndOfStep(limited, c.tMicro, cfg.tstep);
    var soft := SoftLimit(endOfStep, c.tMicro, c.tSoft, c.deltaTSoft, cfg.tstepTs);
    var sc := MrStepLimit(soft, TimeThreshold(c.cloud, cfg.mrstep, h), SpeciesGuard(c.cloud, cfg.cRtmin));
    var sr := MrStepLimit(sc, TimeThreshold(c.rain, cfg.mrstep, h), SpeciesGuard(c.rain, cfg.rRtmin));
    var si := MrStepLimit(sr, TimeThreshold(c.ice, cfg.mrstep, h), IceGuard(c, cfg));
    var ss := MrStepLimit(si, TimeThreshold(c.snow, cfg.mrstep, h), SpeciesGuard(c.snow, cfg.sRtmin));
    var sg := MrStepLimit(ss, TimeThreshold(c.graupel, cfg.mrstep, h), SpeciesGuard(c.graupel, cfg.gRtmin));
    var fallback := BMaxFallback(sg, RBMax(c), cfg.mrstep);
    Trace(candidate, freeze, limited, endOfStep, soft, sc, sr, si, ss, sg, fallback)
  }

  /** What the limiter stencil leaves at one point. */
  function Limited(c: Cell, cfg: Config, h: Helpers): (r: Cell)
    requires c.exn != 0.0
    ensures r.thATnd == c.thATnd + c.thExtTnd
    ensures r.cloud.aTnd == c.cloud.aTnd + c.cloud.extTnd && r.rain.aTnd == c.rain.aTnd + c.rain.extTnd
    ensures r.ice.aTnd == c.ice.aTnd + c.ice.extTnd && r.snow.aTnd == c.snow.aTnd + c.snow.extTnd
    ensures r.graupel.aTnd == c.graupel.aTnd + c.graupel.extTnd
    ensures r == c.(thATnd := r.thATnd,
                    cloud := c.cloud.(aTnd := r.cloud.aTnd), rain := c.rain.(aTnd := r.rain.aTnd),
                    ice := c.ice.(aTnd := r.ice.aTnd), snow := c.snow.(aTnd := r.snow.aTnd),
                    graupel := c.graupel.(aTnd := r.graupel.aTnd),
                    deltaTMicro := r.deltaTMicro, ldcompute := r.ldcompute)
    ensures r.ldcompute ==> c.ldcompute
    ensures RBMax(c) > cfg.mrstep ==> r.deltaTMicro == 0.0 && !r.ldcompute
  {
    var f := FoldExternal(c);
    var tr := LimiterTrace(f, cfg, h);
    f.(deltaTMicro := tr.fallback.dt, ldcompute := tr.fallback.ldcompute)
  }

  /** The limiter at one point, stage by stage as the stencil runs it. */
  method LimitCell(c: Cell, cfg: Config, h: Helpers) returns (r: Cell)
    requires c.exn != 0.0
    ensures r == Limited(c, cfg, h)
  {
    r := FoldExternal(c);
    var dt, ld := TimeStages(r, cfg, h);
    dt, ld := MrStepStages(r, cfg, h, dt, ld);
    r := r.(deltaTMicro := dt, ldcompute := ld);
  }

  /** The stages that bound the step by time: the candidate, the freezing
      point, the species limiters, the end of the outer step and the soft
      boundary, on a point f whose tendencies are already folded. */
  method TimeStages(f: Cell, cfg: Config, h: Helpers) returns (dt: real, ld: bool)
    requires f.exn != 0.0
    ensures Step(dt, ld) == LimiterTrace(f, cfg, h).soft
  {
    ghost var tr := LimiterTrace(f, cfg, h);
    dt := if f.ldcompute then cfg.tstep - f.tMicro else 0.0;
    ld := f.ldcompute;
    assert Step(dt, ld) == tr.candidate;

    dt, ld := FreezeStage(dt, ld, f.th, f.thB, f.thATnd, cfg.tt / f.exn);
    assert Step(dt, ld) == tr.freeze;

    // species disappearance
    dt := h.stepLimiter(f.cloud.aTnd, f.cloud.b, f.cloud.mr, dt, cfg.cRtmin, cfg.mnhTiny);
    dt := h.stepLimiter(f.rain.aTnd, f.rain.b, f.rain.mr, dt, cfg.rRtmin, cfg.mnhTiny);
    dt := h.stepLimiter(f.ice.aTnd, f.ice.b, f.ice.mr, dt, cfg.iRtmin, cfg.mnhTiny);
    dt := h.stepLimiter(f.snow.aTnd, f.snow.b, f.snow.mr, dt, cfg.sRtmin, cfg.mnhTiny);
    dt := h.stepLimiter(f.graupel.aTnd, f.graupel.b, f.graupel.mr, dt, cfg.gRtmin, cfg.mnhTiny);
    assert Step(dt, ld) == tr.stepLimiters;

    dt, ld := EndOfStepStage(dt, ld, f.tMicro, cfg.tstep);
    assert Step(dt, ld) == tr.endOfStep;
    dt, ld := SoftStage(dt, ld, f.tMicro, f.tSoft, f.deltaTSoft, cfg.tstepTs);
  }

  /** The MRSTEP stages, cloud to graupel, and the r_b_max fallback, on a
      point f whose tendencies are already folded. */
  method MrStepStages(f: Cell, cfg: Config, h: Helpers, dt: real, ld: bool) returns (dt': real, ld': bool)
    requires f.exn != 0.0
    requires Step(dt, ld) == LimiterTrace(f, cfg, h).soft
    ensures Step(dt', ld') == LimiterTrace(f, cfg, h).fallback
  {
    ghost var tr := LimiterTrace(f, cfg, h);
    var threshold := TimeThreshold(f.cloud, cfg.mrstep, h);
    dt', ld' := MrStepStage(dt, ld, threshold, f.cloud.mr > cfg.cRtmin || f.cloud.aTnd > 0.0);
    assert Step(dt', ld') == tr.cloud;
    var rBMax := Abs(f.rain.b);
    threshold := TimeThreshold(f.rain, cfg.mrstep, h);
    dt', ld' := MrStepStage(dt', ld', threshold, f.rain.mr > cfg.rRtmin || f.rain.aTnd > 0.0);
    assert Step(dt', ld') == tr.rain;
    rBMax := Max(rBMax, Abs(f.rain.b));
    threshold := TimeThreshold(f.ice, cfg.mrstep, h);
    dt', ld' := MrStepStage(dt', ld', threshold, f.cloud.mr > cfg.iRtmin || f.ice.aTnd > 0.0);
    assert Step(dt', ld') == tr.ice;
    rBMax := Max(rBMax, Abs(f.ice.b));
    threshold := TimeThreshold(f.snow, cfg.mrstep, h);
    dt', ld' := MrStepStage(dt', ld', threshold, f.snow.mr > cfg.sRtmin || f.snow.aTnd > 0.0);
    assert Step(dt', ld') == tr.snow;
    rBMax := Max(rBMax, Abs(f.snow.b));
    threshold := TimeThreshold(f.graupel, cfg.mrstep, h);
    dt', ld' := MrStepStage(dt', ld', threshold, f.graupel.mr > cfg.gRtmin || f.graupel.aTnd > 0.0);
    assert Step(dt', ld') == tr.graupel;
    rBMax := Max(rBMax, Abs(f.graupel.b));
    assert rBMax == RBMax(f);

    // largest instantaneous change
    if rBMax > cfg.mrstep {
      dt' := 0.0;
      ld' := false;
    }
  }

  /** The freezing-point stage on the running step. */
  method FreezeStage(dt: real, ld: bool, th: real, thB: real, thA: real, thetaTt: real)
    returns (dt': real, ld': bool)
    ensures Step(dt', ld') == FreezeLimit(Step(dt, ld), th, thB, thA, thetaTt)
  {
    dt', ld' := dt, ld;
    if (th - thetaTt) * (th + thB - thetaTt) < 0.0 {
      dt' := 0.0;
    }
    if thA > Tiny {
      var tmp := (thetaTt - thB - th) / thA;
      if tmp > 0.0 {
        dt' := Min(dt', tmp);
      }
    }
  }

  /** The end-of-step stage on the running step. */
  method EndOfStepStage(dt: real, ld: bool, tMicro: real, tstep: real) returns (dt': real, ld': bool)
    ensures Step(dt', ld') == EndOfStep(Step(dt, ld), tMicro, tstep)
  {
    dt', ld' := dt, ld;
    if tMicro + dt > tstep {
      ld' := false;
    }
  }

  /** The soft-boundary stage on the running step. */
  method SoftStage(dt: real, ld: bool, tMicro: real, tSoft: real, deltaTSoft: real, tstepTs: real)
    returns (dt': real, ld': bool)
    ensures Step(dt', ld') == SoftLimit(Step(dt, ld), tMicro, tSoft, deltaTSoft, tstepTs)
  {
    dt', ld' := dt, ld;
    if tstepTs != 0.0 && tMicro + dt > tSoft + deltaTSoft {
      dt' := tSoft + deltaTSoft - tMicro;
      ld' := false;
    }
  }

  /** One "largest change per sub-step" stage: the step is cut to the
      species' threshold time when that is shorter and the species is present
      or growing. */
  method MrStepStage(dt: real, ld: bool, threshold: real, guard: bool) returns (dt': real, ld': bool)
    ensures Step(dt', ld') == MrStepLimit(Step(dt, ld), threshold, guard)
  {
    dt', ld' := dt, ld;
    if threshold >= 0.0 && threshold < dt && guard {
      dt' := Min(dt, threshold);
      ld' := false;
    }
  }

  /** The limiter over a whole grid, read from the current values: every
      point is limited on its own. */
  method LimitGrid(cells: seq<Cell>, cfg: Config, h: Helpers) returns (out: seq<Cell>)
    requires forall j :: 0 <= j < |cells| ==> cells[j].exn != 0.0
    ensures |out| == |cells|
    ensures forall j :: 0 <= j < |cells| ==> out[j] == Limited(cells[j], cfg, h)
  {
    out := [];
    for i := 0 to |cells|
      invariant |out| == i
      invariant forall j :: 0 <= j < i ==> out[j] == Limited(cells[j], cfg, h)
    {
      var r := LimitCell(cells[i], cfg, h);
      out := out + [r];
    }
  }

  /** The limiter stencil: every grid point's fields are replaced, all at
      once, by their limited values. */
  method ApplyLimiter(cells: array<Cell>, cfg: Config, h: Helpers)
    requires forall j :: 0 <= j < cells.Length ==> cells[j].exn != 0.0
    modifies cells
    ensures forall j :: 0 <= j < cells.Length ==> cells[j] == Limited(old(cells[j]), cfg, h)
  {
    var out := LimitGrid(cells[..], cfg, h);
    forall j | 0 <= j < cells.Length {
      cells[j] := out[j];
    }
  }

  /** After the visible stages that follow the opaque species limiters, the
      step is no longer than the one those limiters returned (or 0). */
  lemma {:induction false} StagesAfterStepLimitersNeverLengthen(c: Cell, cfg: Config, h: Helpers)
    requires c.exn != 0.0
    ensures var tr := LimiterTrace(c, cfg, h);
            tr.fallback.dt <= Max(tr.stepLimiters.dt, 0.0)
  {
    var tr := LimiterTrace(c, cfg, h);
    ShrinksTransitive(tr.stepLimiters, tr.endOfStep, tr.soft);
    ShrinksTransitive(tr.stepLimiters, tr.soft, tr.cloud);
    ShrinksTransitive(tr.stepLimiters, tr.cloud, tr.rain);
    ShrinksTransitive(tr.stepLimiters, tr.rain, tr.ice);
    ShrinksTransitive(tr.stepLimiters, tr.ice, tr.snow);
    ShrinksTransitive(tr.stepLimiters, tr.snow, tr.graupel);
    ShrinksTransitive(tr.stepLimiters, tr.graupel, tr.fallback);
  }

  lemma ShrinksTransitive(a: Step, b: Step, c: Step)
    requires Shrinks(a, b) && Shrinks(b, c)
    ensures Shrinks(a, c)
  {
  }
}
