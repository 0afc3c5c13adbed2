/**
 * The clock guard: a 32-bit clock that is pulled back before it overflows,
 * and the callback that warps the alarm queue of the main CPU with it.
 */
module ClkGuard {
  import opened AlarmQueue
  import opened AlarmContexts

  const SUB_MIN: nat := 0xfffff

  /** `Guard(base, max)`: pull back by multiples of base once the clock has reached max. */
  datatype Guard = Unguarded | Guard(base: nat, max: nat)

  predicate ValidGuard(g: Guard) {
    g.Guard? ==> SUB_MIN * 3 <= g.max <= TOP
  }

  function ClockSub(g: Guard): nat
    requires g.Guard? && ValidGuard(g)
  {
    var sub := g.max - SUB_MIN;
    if g.base != 0 then sub / g.base * g.base else sub
  }

  /** The amount is the largest multiple of the base that leaves the reserve in place. */
  lemma ClockSubFits(g: Guard) returns (k: nat)
    requires g.Guard? && ValidGuard(g)
    ensures ClockSub(g) <= g.max - SUB_MIN
    ensures g.base != 0 ==> ClockSub(g) == k * g.base && g.max - SUB_MIN < ClockSub(g) + g.base
    ensures g.base == 0 ==> ClockSub(g) == g.max - SUB_MIN
  {
    k := if g.base != 0 then (g.max - SUB_MIN) / g.base else 0;
  }

  /** The main CPU's clock with its guard; the overflow callback warps the CPU's alarms. */
  class GuardedClock {
    var clk: nat
    var clkBase: nat
    const clkMaxValue: nat
    const alarms: AlarmContext

    constructor (alarms: AlarmContext)
      ensures this.alarms == alarms && clk == 0 && TheGuard() == Guard(0, TOP - SUB_MIN)
    {
      this.alarms := alarms;
      clk := 0;
      clkBase := 0;
      clkMaxValue := TOP - SUB_MIN;
    }

    function TheGuard(): Guard
      reads this
    {
      Guard(clkBase, clkMaxValue)
    }

    /** Nothing happens below the maximum; at or above it clock and alarms move back by the same amount. */
    method PreventOverflow() returns (sub: nat)
      requires ValidGuard(TheGuard()) && alarms.Valid() && clk <= TOP
      modifies this`clk, alarms`nextPendingClk, alarms.pendingAlarms
      ensures sub == if clkMaxValue <= old(clk) then ClockSub(TheGuard()) else 0
      ensures clk == old(clk) - sub && clkBase == old(clkBase) && alarms.alarms == old(alarms.alarms)
      ensures sub == 0 ==> alarms.Queue() == old(alarms.Queue())
      ensures sub > 0 ==> alarms.Queue() == Warp(old(alarms.Queue()), sub, -1, TOP)
      ensures alarms.Linked()
      ensures Named(old(alarms.Queue())) ==> (alarms.Valid() <==> sub == 0 || WarpsTogether(old(alarms.Queue()), sub))
    {
      if clk < clkMaxValue {
        return 0;
      }
      sub := ClockSub(TheGuard());
      var _ := ClockSubFits(TheGuard());
      hide ClockSub, Ok, Warp, IndexOf, WarpsTogether, Named;
      if Named(alarms.Queue()) {
        WarpBackKeepsLeast(alarms.Queue(), sub, TOP);
      }
      clk := Wrap(clk - sub, TOP);
      alarms.TimeWarp(sub, -1);
    }
  }
}
