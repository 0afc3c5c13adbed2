/**
 * Alarms and alarm contexts as the objects the emulator updates in place: a
 * fixed array of pending entries, a back-index in every alarm, and the cached
 * next alarm.
 */
module AlarmContexts {
  import opened AlarmQueue
  import opened AlarmDispatch

  class Alarm {
    const context: AlarmContext
    var pendingIdx: int

    constructor (context: AlarmContext)
      ensures this.context == context && pendingIdx == -1
    {
      this.context := context;
      pendingIdx := -1;
    }
  }

  class AlarmContext {
    // The alarms of this context, newest first.
    var alarms: seq<Alarm>
    const pendingAlarms: array<Pending<Alarm?>>
    var numPending: nat
    var nextPendingClk: nat
    var nextPendingIdx: int

    constructor ()
      ensures Valid() && fresh(pendingAlarms)
      ensures alarms == [] && Queue().pending == [] && nextPendingClk == TOP
    {
      alarms := [];
      pendingAlarms := new Pending<Alarm?>[CAPACITY](_ => Pending(null, 0));
      numPending := 0;
      nextPendingClk := TOP;
      nextPendingIdx := *;
    }

    /** The queue this object holds. */
    ghost function Queue(): (c: Context<Alarm?>)
      requires numPending <= pendingAlarms.Length
      reads this, pendingAlarms
    {
      Context(pendingAlarms[..numPending], nextPendingClk, nextPendingIdx)
    }

    /** Every alarm's back-index is exactly its place in the pending array, or -1. */
    ghost predicate Linked()
      reads this, pendingAlarms, alarms
    {
      && pendingAlarms.Length == CAPACITY && numPending <= CAPACITY
      && (forall a <- alarms :: a.context == this && a.pendingIdx == IndexOf(Queue().pending, a))
      && (forall i :: 0 <= i < numPending ==> pendingAlarms[i].alarm in alarms)
    }

    ghost predicate Valid()
      reads this, pendingAlarms, alarms
    {
      Linked() && Ok(Queue(), TOP)
    }

    /** A new alarm of this context, not pending. */
    method NewAlarm() returns (a: Alarm)
      requires Valid()
      modifies this`alarms
      ensures Valid() && fresh(a) && alarms == [a] + old(alarms) && Queue() == old(Queue())
    {
      a := new Alarm(this);
      assert forall i :: 0 <= i < numPending ==> pendingAlarms[i].alarm in old(alarms);
      alarms := [a] + alarms;
      assert forall i :: 0 <= i < numPending ==> pendingAlarms[i].alarm in alarms[1..];
    }

    method UpdateNextPending()
      requires pendingAlarms.Length == CAPACITY && numPending <= CAPACITY
      modifies this`nextPendingClk, this`nextPendingIdx
      ensures Queue() == Rescan(old(Queue()), TOP)
    {
      var clk, idx := TOP, nextPendingIdx;
      var i := 0;
      while i < numPending
        invariant 0 <= i <= numPending
        invariant Scan(Queue().pending, i, clk, idx) == Scan(Queue().pending, 0, TOP, nextPendingIdx)
      {
        var pendingClk := pendingAlarms[i].clk;
        if pendingClk <= clk {
          clk := pendingClk;
          idx := i;
        }
        i := i + 1;
      }
      nextPendingClk := clk;
      nextPendingIdx := idx;
    }

    method Set(a: Alarm, cpuClk: nat)
      requires Valid() && a in alarms && cpuClk <= TOP
      modifies this`numPending, this`nextPendingClk, this`nextPendingIdx, pendingAlarms, a
      ensures Valid() && alarms == old(alarms)
      ensures Queue() == AlarmQueue.Set(old(Queue()), a, cpuClk, TOP)
    {
      hide IndexOf, Scan, ClockIsLeast, Distinct, Ok, Rescan;
      SetKeepsOk(Queue(), a, cpuClk, TOP);
      OkIsDistinct(Queue(), TOP);
      var idx := a.pendingIdx;
      if idx < 0 {
        var newIdx := numPending;
        if newIdx >= CAPACITY {
          return;
        }
        pendingAlarms[newIdx] := Pending(a, cpuClk);
        numPending := numPending + 1;
        if cpuClk < nextPendingClk {
          nextPendingClk := cpuClk;
          nextPendingIdx := newIdx;
        }
        a.pendingIdx := newIdx;
        assert Queue().pending == old(Queue().pending) + [Pending(a, cpuClk)];
        forall x <- alarms ensures x.pendingIdx == IndexOf(Queue().pending, x) {
          IndexOfAppended(old(Queue().pending), a, cpuClk, x);
        }
      } else {
        pendingAlarms[idx] := Pending(a, cpuClk);
        assert Queue().pending == old(Queue().pending)[idx := Pending(a, cpuClk)];
        forall x <- alarms ensures x.pendingIdx == IndexOf(Queue().pending, x) {
          IndexOfReplaced(old(Queue().pending), idx, cpuClk, x);
        }
        if nextPendingClk > cpuClk || idx == nextPendingIdx {
          UpdateNextPending();
        }
      }
    }

    /** Copies the entry just cut off the end into the hole at idx, and tells its alarm. */
    method FillHole(idx: nat, last: nat)
      requires pendingAlarms.Length == CAPACITY && idx <= last == numPending < CAPACITY
      requires forall i :: 0 <= i <= last ==> pendingAlarms[i].alarm in alarms
      requires Distinct(pendingAlarms[..last + 1])
      requires forall x <- alarms :: x.pendingIdx == IndexOf(pendingAlarms[..last + 1], x)
      modifies pendingAlarms, alarms
      ensures pendingAlarms[..last] == SwapRemove(old(pendingAlarms[..last + 1]), idx)
      ensures forall i :: 0 <= i < last ==> pendingAlarms[i].alarm in alarms
      ensures forall x <- alarms | x != old(pendingAlarms[idx].alarm) ::
        x.pendingIdx == IndexOf(pendingAlarms[..last], x)
      ensures IndexOf(pendingAlarms[..last], old(pendingAlarms[idx].alarm)) == -1
    {
      hide IndexOf, Distinct;
      ghost var p := pendingAlarms[..last + 1];
      if last != idx {
        pendingAlarms[idx] := pendingAlarms[last];
        var moved: Alarm := pendingAlarms[idx].alarm;
        moved.pendingIdx := idx;
        OnlyLast(p, moved);
      }
      assert pendingAlarms[..last] == SwapRemove(p, idx);
      forall x: Alarm? ensures IndexOf(pendingAlarms[..last], x) ==
          if x == p[idx].alarm then -1 else if IndexOf(p, x) == last then idx else IndexOf(p, x) {
        IndexOfSwapRemoved(p, idx, x);
      }
    }

    lemma OnlyLast(p: seq<Pending<Alarm?>>, moved: Alarm)
      requires p != [] && Distinct(p) && p[|p| - 1].alarm == moved
      ensures forall x: Alarm? :: IndexOf(p, x) == |p| - 1 <==> x == moved
    {
      IndexOfUnique(p, |p| - 1);
    }

    method Unset(a: Alarm)
      requires Valid() && a in alarms
      modifies this`numPending, this`nextPendingClk, this`nextPendingIdx, pendingAlarms, alarms
      ensures Valid() && alarms == old(alarms)
      ensures Queue() == AlarmQueue.Unset(old(Queue()), a, TOP)
    {
      hide IndexOf, Scan, ClockIsLeast, Distinct, Ok, Rescan, SwapRemove;
      UnsetKeepsOk(Queue(), a, TOP);
      OkIsDistinct(Queue(), TOP);
      var idx := a.pendingIdx;
      if idx < 0 {
        return;
      }
      if numPending > 1 {
        numPending := numPending - 1;
        var last := numPending;
        FillHole(idx, last);
        if nextPendingIdx == idx {
          UpdateNextPending();
        } else if nextPendingIdx == last {
          nextPendingIdx := idx;
        }
      } else {
        OnlyOne(Queue().pending, a);
        numPending := 0;
        nextPendingClk := TOP;
        nextPendingIdx := -1;
      }
      a.pendingIdx := -1;
    }

    lemma OnlyOne(p: seq<Pending<Alarm?>>, a: Alarm)
      requires |p| <= 1 && IndexOf(p, a) >= 0
      ensures forall x: Alarm? :: IndexOf(p, x) == (if x == a then 0 else -1) && IndexOf(p[..0], x) == -1
    {}

    /** Moves every pending clock and the cached one, whether or not anything is pending. */
    method TimeWarp(amount: nat, direction: int)
      requires Linked()
      modifies this`nextPendingClk, pendingAlarms
      ensures Linked() && alarms == old(alarms)
      ensures Queue() == Warp(old(Queue()), amount, direction, TOP)
    {
      hide Warped, IndexOf;
      if direction == 0 {
        return;
      }
      ghost var before := pendingAlarms[..];
      var i := 0;
      while i < numPending
        invariant 0 <= i <= numPending && nextPendingClk == old(nextPendingClk)
        invariant forall k :: 0 <= k < i ==>
          pendingAlarms[k] == Pending(before[k].alarm, Warped(before[k].clk, amount, direction, TOP))
        invariant forall k :: i <= k < CAPACITY ==> pendingAlarms[k] == before[k]
      {
        pendingAlarms[i] := pendingAlarms[i].(clk := Warped(pendingAlarms[i].clk, amount, direction, TOP));
        i := i + 1;
      }
      nextPendingClk := Warped(nextPendingClk, amount, direction, TOP);
      SameIndices(old(Queue().pending), Queue().pending);
      assert Queue().pending == Warp(old(Queue()), amount, direction, TOP).pending;
    }

    /** The alarm whose callback runs, and the offset it is passed. */
    method DispatchNext(cpuClk: nat) returns (a: Alarm?, offset: nat)
      requires Valid() && nextPendingClk <= cpuClk < TOP
      ensures NamesEntry(Queue()) && a == Queue().pending[nextPendingIdx].alarm && a in alarms
      ensures offset == cpuClk - nextPendingClk
    {
      offset := Wrap(cpuClk - nextPendingClk, TOP);
      a := pendingAlarms[nextPendingIdx].alarm;
    }

    /** A callback that disarms its alarm or arms it again. */
    method CallBack(a: Alarm, due: nat, reaction: Reaction)
      requires Valid() && a in alarms && (reaction.Rearm? ==> due + reaction.delay < TOP)
      modifies this`numPending, this`nextPendingClk, this`nextPendingIdx, pendingAlarms, alarms
      ensures Valid() && alarms == old(alarms)
      ensures Queue() == React(old(Queue()), a, due, reaction, TOP)
    {
      hide Ok, AlarmQueue.Set, AlarmQueue.Unset, IndexOf;
      if reaction.Disarm? {
        Unset(a);
      } else {
        Set(a, due + reaction.delay);
      }
    }

    /** The loop of the CPU cores, with callbacks that disarm or re-arm their own alarm. */
    method DispatchDue(cpuClk: nat, react: nat -> Reaction) returns (fired: seq<Fired<Alarm?>>)
      requires Valid() && cpuClk < TOP && Polite(react, cpuClk, TOP)
      modifies this`numPending, this`nextPendingClk, this`nextPendingIdx, pendingAlarms, alarms
      ensures Valid() && alarms == old(alarms)
      ensures (Queue(), fired) == Dispatch(old(Queue()), cpuClk, react, 0, TOP)
    {
      hide Dispatch, Continues, Backlog, Ok, Polite, React, IndexOf;
      fired := [];
      ContinuesEnds(old(Queue()), fired, Queue(), cpuClk, react);
      while cpuClk >= nextPendingClk
        invariant Valid() && alarms == old(alarms)
        invariant Continues(old(Queue()), fired, Queue(), cpuClk, react)
        decreases Backlog(Queue().pending, cpuClk)
      {
        ghost var before, was := Queue(), fired;
        var reaction := react(|fired|);
        PoliteAt(react, |fired|, cpuClk, TOP);
        ReactionProgress(before, cpuClk, reaction, TOP);
        var due := nextPendingClk;
        var a, offset := DispatchNext(cpuClk);
        CallBack(a, due, reaction);
        fired := fired + [Fired(a, offset)];
        ContinuesOn(old(Queue()), was, before, cpuClk, react);
      }
      ContinuesEnds(old(Queue()), fired, Queue(), cpuClk, react);
    }
  }

  /** What has fired so far, followed by what the queue at hand will fire, is the whole dispatch. */
  ghost predicate Continues<A>(start: Context<A>, fired: seq<Fired<A>>, c: Context<A>, now: nat,
    react: nat -> Reaction) {
    && Ok(start, TOP) && Ok(c, TOP) && now < TOP && Polite(react, now, TOP)
    && var rest := Dispatch(c, now, react, |fired|, TOP);
    && var whole := Dispatch(start, now, react, 0, TOP);
    && rest.0 == whole.0
    && fired + rest.1 == whole.1
  }

  lemma ContinuesEnds<A>(start: Context<A>, fired: seq<Fired<A>>, c: Context<A>, now: nat, react: nat -> Reaction)
    requires Ok(start, TOP) && now < TOP && Polite(react, now, TOP)
    ensures Continues(start, [], start, now, react)
    ensures Continues(start, fired, c, now, react) && now < c.nextClk ==>
      (c, fired) == Dispatch(start, now, react, 0, TOP)
  {
    hide Ok, React, Polite;
    assert fired + [] == fired;
    var whole := Dispatch(start, now, react, 0, TOP).1;
    assert [] + whole == whole;
  }

  lemma ContinuesOn<A>(start: Context<A>, fired: seq<Fired<A>>, c: Context<A>, now: nat, react: nat -> Reaction)
    requires Continues(start, fired, c, now, react) && c.nextClk <= now
    ensures NamesEntry(c)
    ensures var a := c.pending[c.nextIdx].alarm;
      Continues(start, fired + [Fired(a, now - c.nextClk)], React(c, a, c.nextClk, react(|fired|), TOP), now, react)
  {
    hide Ok, React, Polite;
    PoliteAt(react, |fired|, now, TOP);
    ReactionProgress(c, now, react(|fired|), TOP);
    var a := c.pending[c.nextIdx].alarm;
    var rest := Dispatch(React(c, a, c.nextClk, react(|fired|), TOP), now, react, |fired| + 1, TOP);
    assert fired + ([Fired(a, now - c.nextClk)] + rest.1) == fired + [Fired(a, now - c.nextClk)] + rest.1;
  }

  lemma {:induction false} SameIndices(p: seq<Pending<Alarm?>>, q: seq<Pending<Alarm?>>)
    requires |p| == |q| && forall k :: 0 <= k < |p| ==> p[k].alarm == q[k].alarm
    ensures forall x :: IndexOf(p, x) == IndexOf(q, x)
  {
    if p != [] {
      SameIndices(p[..|p| - 1], q[..|q| - 1]);
    }
  }
}
