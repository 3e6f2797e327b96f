/** The soft-recompute window (ice4_stepping_soft.py): each window starts
    where the sub-cycling currently stands. */
module SteppingSoft {
  import opened Fields
  import Limiter

  /** ice4_stepping_init_tsoft at one point. */
  function InitTSoft(c: Cell): Cell
  {
    c.(tSoft := c.tMicro)
  }

  /** The stencil over the grid: t_soft takes the value of t_micro, and
      nothing else (t_micro in particular) is written. */
  method ApplyInitTSoft(cells: array<Cell>)
    modifies cells
    ensures forall j :: 0 <= j < cells.Length ==>
              cells[j].tSoft == cells[j].tMicro && cells[j].tMicro == old(cells[j]).tMicro &&
              cells[j] == old(cells[j]).(tSoft := cells[j].tSoft)
  {
    for i := 0 to cells.Length
      invariant forall j :: 0 <= j < i ==> cells[j] == InitTSoft(old(cells[j]))
      invariant forall j :: i <= j < cells.Length ==> cells[j] == old(cells[j])
    {
      cells[i] := InitTSoft(cells[i]);
    }
  }

  /** Opening the window twice is the same as opening it once. */
  lemma InitTSoftIdempotent(c: Cell)
    ensures InitTSoft(InitTSoft(c)) == InitTSoft(c)
  {
  }

  /** Right after the window is opened, the limiter's soft-boundary stage
      cuts a step exactly when it is longer than the window, and then cuts
      it to the window's length. */
  lemma SoftTestAfterInit(c: Cell, s: Limiter.Step, tstepTs: real)
    ensures var o := InitTSoft(c);
            Limiter.SoftLimit(s, o.tMicro, o.tSoft, o.deltaTSoft, tstepTs) ==
              if tstepTs != 0.0 && s.dt > c.deltaTSoft then Limiter.Step(c.deltaTSoft, false) else s
  {
  }
}
