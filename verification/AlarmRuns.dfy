/**
 * Runs of a machine with a clock, an alarm queue and a clock guard.  A guarded
 * 32-bit run fires the same alarms at the same true times as a machine whose
 * clock is so wide that it never needs pulling back, and every such run is a
 * legal run of an ideal machine: a natural-number clock and a map from alarms
 * to due times.
 */
module AlarmRuns {
  import opened AlarmDispatch
  import opened AlarmQueue
  import opened ClkGuard

  datatype System<A> = System(clk: nat, queue: Context<A>)

  /**
   * What happens to a machine: its CPU clock advances; an alarm is set
   * relative to the CPU clock or unset, by a callback or by anything else; the
   * dispatch loop looks once for a due alarm; the overflow guard runs.
   */
  datatype Action<A> =
    | Advance(cycles: nat)
    | SetIn(alarm: A, delta: int)
    | Clear(alarm: A)
    | Service
    | PreventOverflow

  datatype Firing<A> = Firing(alarm: A, time: int, offset: int)

  /** What one action takes off the clock. */
  function Sub<A>(clk: nat, act: Action<A>, g: Guard): nat
    requires ValidGuard(g)
  {
    if !act.PreventOverflow? || g.Unguarded? || clk < g.max then 0 else ClockSub(g)
  }

  function Step<A(==)>(s: System<A>, act: Action<A>, top: nat, g: Guard): System<A>
    requires ValidGuard(g)
  {
    match act
    case Advance(n) => System(Wrap(s.clk + n, top), s.queue)
    case SetIn(a, delta) => System(s.clk, Set(s.queue, a, Wrap(s.clk + delta, top), top))
    case Clear(a) => System(s.clk, Unset(s.queue, a, top))
    case Service => s
    case PreventOverflow =>
      if g.Unguarded? || s.clk < g.max then s
      else System(Wrap(s.clk - ClockSub(g), top), Warp(s.queue, ClockSub(g), -1, top))
  }

  /**
   * The guard touches no clock below its maximum; one that has reached it keeps the reserve, less
   * than one base more, and what it was over the maximum.
   */
  lemma GuardLeaves<A>(s: System<A>, top: nat, g: Guard) returns (k: nat)
    requires ValidGuard(g) && g.Guard? && 0 < g.base && s.clk <= top && TOP <= top
    ensures var t := Step(s, PreventOverflow, top, g);
      if s.clk < g.max then t == s
      else 0xfffff + (s.clk - g.max) <= t.clk < 0xfffff + g.base + (s.clk - g.max) && s.clk - t.clk == k * g.base
  {
    hide Warp, ClockSub;
    k := ClockSubFits(g);
  }

  /** Inside the clock type, with something pending whenever the clock is pulled back, and nothing set before it. */
  predicate Safe<A>(s: System<A>, act: Action<A>, top: nat, g: Guard)
    requires ValidGuard(g)
  {
    match act
    case Advance(n) => s.clk + n < top
    case SetIn(_, delta) => 0 <= s.clk + delta < top
    case PreventOverflow =>
      g.Unguarded? || s.clk < g.max || (s.queue.pending != [] && ClockSub(g) <= s.queue.nextClk)
    case _ => true
  }

  ghost predicate Inv<A>(s: System<A>, top: nat) {
    s.clk < top && Ok(s.queue, top) && Named(s.queue)
  }

  lemma StepKeepsInv<A>(s: System<A>, act: Action<A>, top: nat, g: Guard)
    requires ValidGuard(g) && TOP <= top && Inv(s, top) && Safe(s, act, top, g)
    ensures Inv(Step(s, act, top, g), top)
  {
    hide Wrap, Set, Unset, Warp, Moved, ClockSub, Scan, IndexOf;
    match act
    case SetIn(a, delta) => SetKeepsOk(s.queue, a, s.clk + delta, top);
    case Clear(a) => UnsetKeepsOk(s.queue, a, top);
    case PreventOverflow =>
      if g.Guard? && g.max <= s.clk {
        var _ := ClockSubFits(g);
        WarpBack(s.queue, ClockSub(g), top);
      }
    case _ =>
  }

  /** Without wrap-around a warp is a plain subtraction. */
  lemma WarpBack<A>(c: Context<A>, sub: nat, top: nat)
    requires Ok(c, top) && Named(c) && c.pending != [] && sub <= c.nextClk
    ensures Ok(Warp(c, sub, -1, top), top) && Named(Warp(c, sub, -1, top))
    ensures Warp(c, sub, -1, top) == Context(Moved(c.pending, -(sub as int)), c.nextClk - sub, c.nextIdx)
  {
    hide Warped;
    WarpedBack(c.nextClk, sub, top);
    forall i | 0 <= i < |c.pending| ensures Warped(c.pending[i].clk, sub, -1, top) == c.pending[i].clk - sub {
      WarpedBack(c.pending[i].clk, sub, top);
    }
    assert Warp(c, sub, -1, top).pending == Moved(c.pending, -(sub as int));
  }

  function Fires<A>(s: System<A>, act: Action<A>, elapsed: nat): seq<Firing<A>>
    requires act.Service? && s.queue.nextClk <= s.clk ==> NamesEntry(s.queue)
  {
    if act.Service? && s.queue.nextClk <= s.clk then
      [Firing(s.queue.pending[s.queue.nextIdx].alarm, elapsed + s.clk, s.clk - s.queue.nextClk)]
    else []
  }

  ghost predicate SafeRun<A>(s: System<A>, acts: seq<Action<A>>, top: nat, g: Guard)
    requires ValidGuard(g)
    decreases |acts|
  {
    acts == [] || (Safe(s, acts[0], top, g) && SafeRun(Step(s, acts[0], top, g), acts[1..], top, g))
  }

  /** The alarms a run fires, with the true time of each: `elapsed` is what has been subtracted so far. */
  ghost function Trace<A>(s: System<A>, acts: seq<Action<A>>, top: nat, g: Guard, elapsed: nat): seq<Firing<A>>
    requires ValidGuard(g) && TOP <= top && Inv(s, top) && SafeRun(s, acts, top, g)
    decreases |acts|
  {
    if acts == [] then []
    else
      StepKeepsInv(s, acts[0], top, g);
      var e := elapsed + Sub(s.clk, acts[0], g);
      Fires(s, acts[0], elapsed) + Trace(Step(s, acts[0], top, g), acts[1..], top, g, e)
  }

  // ---------------------------------------------------------------- the wide clock

  /** The entries with every clock moved by `shift`. */
  ghost function Moved<A>(p: seq<Pending<A>>, shift: int): (q: seq<Pending<A>>)
    requires forall i :: 0 <= i < |p| ==> 0 <= p[i].clk + shift
    ensures |q| == |p| && forall i :: 0 <= i < |p| ==> q[i] == Pending(p[i].alarm, p[i].clk + shift)
  {
    seq(|p|, i requires 0 <= i < |p| => Pending(p[i].alarm, p[i].clk + shift))
  }

  /** The same machine seen on a clock with largest value `wide` that was never pulled back. */
  ghost function Widened<A>(c: Context<A>, elapsed: nat, wide: nat): Context<A> {
    Context(Moved(c.pending, elapsed), if c.pending == [] then wide else c.nextClk + elapsed, c.nextIdx)
  }

  ghost function WideSystem<A>(s: System<A>, elapsed: nat, wide: nat): System<A> {
    System(s.clk + elapsed, Widened(s.queue, elapsed, wide))
  }

  lemma {:induction false} MovedIndexOf<A>(p: seq<Pending<A>>, e: nat, a: A)
    ensures IndexOf(Moved(p, e), a) == IndexOf(p, a)
  {
    if p != [] {
      MovedIndexOf(p[..|p| - 1], e, a);
      assert Moved(p, e)[..|p| - 1] == Moved(p[..|p| - 1], e);
    }
  }

  lemma {:induction false} MovedScan<A>(p: seq<Pending<A>>, e: nat, i: nat, clk: nat, idx: int)
    requires i <= |p|
    ensures Scan(Moved(p, e), i, clk + e, idx) == (Scan(p, i, clk, idx).0 + e, Scan(p, i, clk, idx).1)
    decreases |p| - i
  {
    if i < |p| {
      if p[i].clk <= clk {
        MovedScan(p, e, i + 1, p[i].clk, i);
      } else {
        MovedScan(p, e, i + 1, clk, idx);
      }
    }
  }

  lemma WidenedRescan<A>(c: Context<A>, e: nat, top: nat, wide: nat)
    requires forall i :: 0 <= i < |c.pending| ==> c.pending[i].clk <= top
    requires c.pending != [] && top + e <= wide
    ensures Rescan(Context(Moved(c.pending, e), c.nextClk + e, c.nextIdx), wide) == Widened(Rescan(c, top), e, wide)
  {
    var p := c.pending;
    assert p[0].clk <= top;
    MovedScan(p, e, 1, p[0].clk, 0);
  }

  lemma WidenedSet<A>(c: Context<A>, a: A, clk: nat, e: nat, top: nat, wide: nat)
    requires Ok(c, top) && clk < top && top + e <= wide
    ensures Set(Widened(c, e, wide), a, clk + e, wide) == Widened(Set(c, a, clk, top), e, wide)
  {
    hide Scan, Distinct;
    MovedIndexOf(c.pending, e, a);
    var idx := IndexOf(c.pending, a);
    if idx < 0 {
      assert Moved(c.pending + [Pending(a, clk)], e) == Moved(c.pending, e) + [Pending(a, clk + e)];
    } else {
      var d := Context(c.pending[idx := Pending(a, clk)], c.nextClk, c.nextIdx);
      assert Moved(d.pending, e) == Moved(c.pending, e)[idx := Pending(a, clk + e)];
      WidenedRescan(d, e, top, wide);
    }
  }

  lemma WidenedUnset<A>(c: Context<A>, a: A, e: nat, top: nat, wide: nat)
    requires Ok(c, top) && top + e <= wide
    ensures Unset(Widened(c, e, wide), a, wide) == Widened(Unset(c, a, top), e, wide)
  {
    MovedIndexOf(c.pending, e, a);
    var idx := IndexOf(c.pending, a);
    if idx >= 0 && |c.pending| > 1 {
      var d := Context(SwapRemove(c.pending, idx), c.nextClk, c.nextIdx);
      assert Moved(d.pending, e) == SwapRemove(Moved(c.pending, e), idx);
      WidenedRescan(d, e, top, wide);
    } else if idx >= 0 {
      assert Moved<A>([], e) == [];
    }
  }

  /** One step: pulling back only changes how much of the true time is in `elapsed`. */
  lemma StepWidens<A>(s: System<A>, act: Action<A>, g: Guard, e: nat, wide: nat)
    requires ValidGuard(g) && Inv(s, TOP) && Safe(s, act, TOP, g) && TOP + e <= wide
    ensures Safe(WideSystem(s, e, wide), act, wide, Unguarded)
    ensures Step(WideSystem(s, e, wide), act, wide, Unguarded) ==
      WideSystem(Step(s, act, TOP, g), e + Sub(s.clk, act, g), wide)
  {
    hide Wrap, Set, Unset, Warp, ClockSub, Scan, IndexOf, Distinct;
    match act
    case Advance(n) =>
    case SetIn(a, delta) => WidenedSet(s.queue, a, s.clk + delta, e, TOP, wide);
    case Clear(a) => WidenedUnset(s.queue, a, e, TOP, wide);
    case Service =>
    case PreventOverflow =>
      if g.Guard? && g.max <= s.clk {
        var _ := ClockSubFits(g);
        var sub := ClockSub(g);
        WarpBack(s.queue, sub, TOP);
        assert Moved(Moved(s.queue.pending, -(sub as int)), e + sub) == Moved(s.queue.pending, e);
      }
  }

  /** Wide enough for n more actions: each adds less than the 32-bit range. */
  predicate WideEnough(e: nat, n: nat, wide: nat) {
    e + TOP * (n + 1) <= wide
  }

  lemma WideEnoughNext<A>(e: nat, n: nat, wide: nat, clk: nat, act: Action<A>, g: Guard)
    requires ValidGuard(g) && WideEnough(e, n, wide)
    ensures TOP + e <= wide
    ensures Sub(clk, act, Unguarded) == 0
    ensures n > 0 ==> WideEnough(e + Sub(clk, act, g), n - 1, wide)
  {
    if g.Guard? {
      var _ := ClockSubFits(g);
    }
  }

  lemma FiresWidened<A>(s: System<A>, act: Action<A>, e: nat, wide: nat)
    requires Inv(s, TOP) && TOP + e <= wide
    ensures Inv(WideSystem(s, e, wide), wide)
    ensures s.queue.nextClk <= s.clk ==> NamesEntry(s.queue)
    ensures WideSystem(s, e, wide).queue.nextClk <= WideSystem(s, e, wide).clk ==>
      NamesEntry(WideSystem(s, e, wide).queue)
    ensures Fires(s, act, e) == Fires(WideSystem(s, e, wide), act, 0)
  {}

  /**
   * The guarded 32-bit machine fires the same alarms, at the same true times
   * and with the same offsets, ties included, as a machine with a clock wide
   * enough for the whole run that is never pulled back.
   */
  lemma {:induction false} GuardedRunFiresTheSame<A>(s: System<A>, acts: seq<Action<A>>, g: Guard, e: nat, wide: nat)
    requires ValidGuard(g) && Inv(s, TOP) && SafeRun(s, acts, TOP, g) && WideEnough(e, |acts|, wide)
    ensures TOP <= wide && Inv(WideSystem(s, e, wide), wide)
    ensures SafeRun(WideSystem(s, e, wide), acts, wide, Unguarded)
    ensures Trace(s, acts, TOP, g, e) == Trace(WideSystem(s, e, wide), acts, wide, Unguarded, 0)
    decreases |acts|
  {
    hide Step, Inv, Safe, WideSystem, Sub, Fires, ClockSub, WideEnough, NamesEntry;
    var act := if acts == [] then Service else acts[0];
    WideEnoughNext(e, |acts|, wide, s.clk, act, g);
    WideEnoughNext(e, |acts|, wide, WideSystem(s, e, wide).clk, act, g);
    FiresWidened(s, act, e, wide);
    if acts != [] {
      StepKeepsInv(s, act, TOP, g);
      StepWidens(s, act, g, e, wide);
      GuardedRunFiresTheSame(Step(s, act, TOP, g), acts[1..], g, e + Sub(s.clk, act, g), wide);
    }
  }

  // ---------------------------------------------------------------- the ideal machine

  function IdealNow<A>(now: nat, act: Action<A>): nat {
    if act.Advance? then now + act.cycles else now
  }

  ghost function IdealDue<A>(now: nat, due: map<A, nat>, act: Action<A>): map<A, nat>
    requires act.SetIn? ==> 0 <= now + act.delta
  {
    if act.Clear? then due - {act.alarm}
    else if act.SetIn? && (act.alarm in due || |due| < 256) then due[act.alarm := now + act.delta]
    else due
  }

  /**
   * `fired` is what an ideal machine can fire: whenever the dispatch loop looks
   * and something is due, one of the alarms due soonest fires, with the time
   * since it was due; otherwise nothing fires.
   */
  ghost predicate LegalRun<A>(now: nat, due: map<A, nat>, acts: seq<Action<A>>, fired: seq<Firing<A>>)
    decreases |acts|
  {
    if acts == [] then fired == []
    else
      var act := acts[0];
      && (act.SetIn? ==> 0 <= now + act.delta)
      && if act.Service? && SomeDue(due, now) then
          fired != [] && FiresFirst(due, now, fired[0]) && LegalRun(now, due, acts[1..], fired[1..])
        else LegalRun(IdealNow(now, act), IdealDue(now, due, act), acts[1..], fired)
  }

  ghost predicate SomeDue<A>(due: map<A, nat>, now: nat) {
    exists a :: a in due && due[a] <= now
  }

  ghost predicate FiresFirst<A>(due: map<A, nat>, now: nat, f: Firing<A>) {
    && f.alarm in due
    && (forall b :: b in due ==> due[f.alarm] <= due[b])
    && f.time == now && f.offset == now - due[f.alarm] && due[f.alarm] <= now
  }

  lemma {:induction false} DueSize<A>(p: seq<Pending<A>>)
    requires Distinct(p)
    ensures |Due(p)| == |p|
  {
    if p != [] {
      var last := |p| - 1;
      assert p == p[..last] + [Pending(p[last].alarm, p[last].clk)];
      DueSize(p[..last]);
      AppendedMeans(p[..last], p[last].alarm, p[last].clk);
      assert p[last].alarm !in Due(p[..last]);
    } else {
      assert Due(p) == map[];
    }
  }

  /** On a clock that is never pulled back, each step does to the array what it does to the map. */
  lemma WideStepIsIdeal<A>(s: System<A>, act: Action<A>, top: nat)
    requires TOP <= top && Inv(s, top) && Safe(s, act, top, Unguarded)
    ensures act.SetIn? ==> 0 <= s.clk + act.delta
    ensures Step(s, act, top, Unguarded).clk == IdealNow(s.clk, act)
    ensures Due(Step(s, act, top, Unguarded).queue.pending) == IdealDue(s.clk, Due(s.queue.pending), act)
  {
    hide Set, Unset, Due, Wrap, ClockIsLeast, Named, Distinct, IndexOf, Scan, Warp, ClockSub;
    match act
    case SetIn(a, delta) =>
      SetMeans(s.queue, a, s.clk + delta, top);
      assert |Due(s.queue.pending)| == |s.queue.pending| by {
        OkIsDistinct(s.queue, top);
        DueSize(s.queue.pending);
      }
    case Clear(a) => UnsetMeans(s.queue, a, top);
    case _ =>
  }

  lemma {:induction false} WideRunIsLegal<A>(s: System<A>, acts: seq<Action<A>>, top: nat)
    requires TOP <= top && Inv(s, top) && SafeRun(s, acts, top, Unguarded)
    ensures LegalRun(s.clk, Due(s.queue.pending), acts, Trace(s, acts, top, Unguarded, 0))
    decreases |acts|
  {
    hide Due, Inv, Safe, SomeDue, FiresFirst, IdealNow, IdealDue, NamesEntry;
    if acts != [] {
      var act := acts[0];
      var next := Step(s, act, top, Unguarded);
      StepKeepsInv(s, act, top, Unguarded);
      WideStepIsIdeal(s, act, top);
      ServiceIsLegal(s, top);
      hide Step;
      WideRunIsLegal(next, acts[1..], top);
      var rest := Trace(next, acts[1..], top, Unguarded, 0);
      assert [] + rest == rest;
      assert Trace(s, acts, top, Unguarded, 0) == Fires(s, act, 0) + rest;
    }
  }

  lemma ServiceIsLegal<A>(s: System<A>, top: nat)
    requires Inv(s, top)
    ensures s.queue.nextClk <= s.clk <==> SomeDue(Due(s.queue.pending), s.clk)
    ensures s.queue.nextClk <= s.clk ==>
      NamesEntry(s.queue) && FiresFirst(Due(s.queue.pending), s.clk, Fires<A>(s, Service, 0)[0])
  {
    NextIsEarliest(s.queue, s.clk, top);
    if s.queue.nextClk <= s.clk {
      DueAt(s.queue.pending, s.queue.nextIdx);
    }
  }

  /** Every safe guarded 32-bit run is a legal run of the ideal machine, in true time. */
  lemma GuardedRunIsIdeal<A>(s: System<A>, acts: seq<Action<A>>, g: Guard, e: nat)
    requires ValidGuard(g) && Inv(s, TOP) && SafeRun(s, acts, TOP, g)
    ensures LegalRun(s.clk + e, Due(Moved(s.queue.pending, e)), acts, Trace(s, acts, TOP, g, e))
  {
    var wide := e + TOP * (|acts| + 1);
    hide Trace, LegalRun, SafeRun, Inv, Due;
    GuardedRunFiresTheSame(s, acts, g, e, wide);
    WideRunIsLegal(WideSystem(s, e, wide), acts, wide);
  }

  /** Once the dispatch loop has left nothing due, pulling back is safe as soon as something is pending. */
  lemma PullBackAfterDispatch<A>(s: System<A>, g: Guard)
    requires ValidGuard(g) && Inv(s, TOP) && s.clk < s.queue.nextClk && s.queue.pending != []
    ensures Safe(s, PreventOverflow, TOP, g)
  {
    if g.Guard? {
      var _ := ClockSubFits(g);
    }
  }
}
