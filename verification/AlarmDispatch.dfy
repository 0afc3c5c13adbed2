/**
 * The dispatch loop of the CPU cores: while the CPU clock has reached the
 * cached next alarm, run that alarm's callback with the delay it suffered.
 */
module AlarmDispatch {
  import opened AlarmQueue

  /** What a callback does to its own alarm: switch it off, or set it some ticks after it was due. */
  datatype Reaction = Disarm | Rearm(delay: nat)

  datatype Fired<A> = Fired(alarm: A, offset: int)

  /** The n-th firing reacts as `react(n)`: any delay is positive and set times stay inside the clock type. */
  ghost predicate Polite(react: nat -> Reaction, now: nat, top: nat) {
    forall n :: react(n).Rearm? ==> 0 < react(n).delay && now + react(n).delay < top
  }

  function React<A(==)>(c: Context<A>, a: A, due: nat, reaction: Reaction, top: nat): Context<A> {
    if reaction.Disarm? then Unset(c, a, top) else Set(c, a, due + reaction.delay, top)
  }

  /** The number of ticks by which a pending alarm has been reached or passed, counting its own. */
  function Overdue(clk: nat, now: nat): nat {
    if clk <= now then now + 1 - clk else 0
  }

  function Backlog<A>(p: seq<Pending<A>>, now: nat): nat {
    if p == [] then 0 else Backlog(p[..|p| - 1], now) + Overdue(p[|p| - 1].clk, now)
  }

  lemma {:induction false} BacklogReplaced<A>(p: seq<Pending<A>>, i: nat, e: Pending<A>, now: nat)
    requires i < |p|
    ensures Backlog(p[i := e], now) == Backlog(p, now) - Overdue(p[i].clk, now) + Overdue(e.clk, now)
  {
    var last := |p| - 1;
    if i < last {
      BacklogReplaced(p[..last], i, e, now);
      assert p[i := e][..last] == p[..last][i := e];
    } else {
      assert p[i := e][..last] == p[..last];
    }
  }

  lemma BacklogRemoved<A>(p: seq<Pending<A>>, i: nat, now: nat)
    requires i < |p|
    ensures Backlog(SwapRemove(p, i), now) == Backlog(p, now) - Overdue(p[i].clk, now)
  {
    var last := |p| - 1;
    if i < last {
      BacklogReplaced(p[..last], i, p[last], now);
    }
  }

  /** Every polite reaction to a due alarm keeps the queue in order and shortens the backlog. */
  lemma ReactionProgress<A>(c: Context<A>, now: nat, reaction: Reaction, top: nat)
    requires Ok(c, top) && now < top && c.nextClk <= now
    requires reaction.Rearm? ==> 0 < reaction.delay && now + reaction.delay < top
    ensures NamesEntry(c)
    ensures var d := React(c, c.pending[c.nextIdx].alarm, c.nextClk, reaction, top);
      Ok(d, top) && Backlog(d.pending, now) < Backlog(c.pending, now)
  {
    var idx := c.nextIdx;
    var a := c.pending[idx].alarm;
    IndexOfUnique(c.pending, idx);
    hide ClockIsLeast, Distinct, Scan, IndexOf;
    if reaction.Disarm? {
      UnsetKeepsOk(c, a, top);
      BacklogRemoved(c.pending, idx, now);
    } else {
      SetKeepsOk(c, a, c.nextClk + reaction.delay, top);
      BacklogReplaced(c.pending, idx, Pending(a, c.nextClk + reaction.delay), now);
    }
  }

  /** The loop: the queue it leaves, and what it fired in order. */
  ghost function Dispatch<A>(c: Context<A>, now: nat, react: nat -> Reaction, n: nat, top: nat)
      : (r: (Context<A>, seq<Fired<A>>))
    requires Ok(c, top) && now < top && Polite(react, now, top)
    decreases Backlog(c.pending, now)
  {
    if now < c.nextClk then (c, [])
    else
      ReactionProgress(c, now, react(n), top);
      var a := c.pending[c.nextIdx].alarm;
      var rest := Dispatch(React(c, a, c.nextClk, react(n), top), now, react, n + 1, top);
      (rest.0, [Fired(a, now - c.nextClk)] + rest.1)
  }

  // ---------------------------------------------------------------- the ideal

  /** What a reaction means for the map of due times. */
  ghost function After<A>(due: map<A, nat>, a: A, at: nat, reaction: Reaction): map<A, nat> {
    if reaction.Disarm? then due - {a} else due[a := at + reaction.delay]
  }

  /**
   * A legal history from one map of due times to another: every firing takes
   * an alarm that is due, none is due sooner, its offset is the time passed
   * since, and at the end nothing is due any more.
   */
  ghost predicate Legal<A>(due: map<A, nat>, now: nat, fired: seq<Fired<A>>, react: nat -> Reaction, n: nat,
    end: map<A, nat>)
    decreases |fired|
  {
    if fired == [] then
      due == end && forall a :: a in due ==> now < due[a]
    else
      var a := fired[0].alarm;
      && a in due && due[a] <= now
      && (forall b :: b in due ==> due[a] <= due[b])
      && fired[0].offset == now - due[a]
      && Legal(After(due, a, due[a], react(n)), now, fired[1..], react, n + 1, end)
  }

  lemma OkIsDistinct<A>(c: Context<A>, top: nat)
    requires Ok(c, top)
    ensures Distinct(c.pending)
  {}

  lemma ReactionMeans<A>(c: Context<A>, now: nat, reaction: Reaction, top: nat)
    requires Ok(c, top) && now < top && c.nextClk <= now
    requires reaction.Rearm? ==> 0 < reaction.delay && now + reaction.delay < top
    ensures NamesEntry(c)
    ensures var a := c.pending[c.nextIdx].alarm;
      Due(React(c, a, c.nextClk, reaction, top).pending) == After(Due(c.pending), a, c.nextClk, reaction)
  {
    hide Set, Unset, Due, ClockIsLeast, Distinct;
    NextIsEarliest(c, now, top);
    var a := c.pending[c.nextIdx].alarm;
    assert a in Due(c.pending) by {
      OkIsDistinct(c, top);
      DueAt(c.pending, c.nextIdx);
    }
    if reaction.Disarm? {
      UnsetMeans(c, a, top);
    } else {
      SetMeans(c, a, c.nextClk + reaction.delay, top);
    }
  }

  lemma PoliteAt(react: nat -> Reaction, n: nat, now: nat, top: nat)
    requires Polite(react, now, top)
    ensures react(n).Rearm? ==> 0 < react(n).delay && now + react(n).delay < top
  {}

  /** The loop terminates and is a legal history of the due times. */
  lemma {:induction false} DispatchIsLegal<A>(c: Context<A>, now: nat, react: nat -> Reaction, n: nat, top: nat)
    requires Ok(c, top) && now < top && Polite(react, now, top)
    ensures var r := Dispatch(c, now, react, n, top);
      Ok(r.0, top) && Legal(Due(c.pending), now, r.1, react, n, Due(r.0.pending))
    decreases Backlog(c.pending, now)
  {
    hide Ok, Due, React, Backlog, After, Polite;
    NextIsEarliest(c, now, top);
    if c.nextClk <= now {
      PoliteAt(react, n, now, top);
      ReactionProgress(c, now, react(n), top);
      ReactionMeans(c, now, react(n), top);
      var a := c.pending[c.nextIdx].alarm;
      var d := React(c, a, c.nextClk, react(n), top);
      DispatchIsLegal(d, now, react, n + 1, top);
      var rest := Dispatch(d, now, react, n + 1, top);
      assert ([Fired(a, now - c.nextClk)] + rest.1)[1..] == rest.1;
    }
  }

  /** Nothing fires for a time before all that are due. */
  lemma {:induction false} LegalNotBefore<A>(due: map<A, nat>, now: nat, fired: seq<Fired<A>>,
    react: nat -> Reaction, n: nat, end: map<A, nat>, low: nat)
    requires Legal(due, now, fired, react, n, end) && forall b :: b in due ==> low <= due[b]
    requires forall k :: react(k).Rearm? ==> 0 < react(k).delay
    ensures forall i :: 0 <= i < |fired| ==> 0 <= fired[i].offset && low <= now - fired[i].offset
    decreases |fired|
  {
    if fired != [] {
      var a := fired[0].alarm;
      var next, rest := After(due, a, due[a], react(n)), fired[1..];
      assert forall b :: b in next ==> low <= next[b];
      LegalNotBefore(next, now, rest, react, n + 1, end, low);
      assert forall i :: 1 <= i < |fired| ==> fired[i] == rest[i - 1];
    }
  }

  /** Due times never go backwards, and an alarm due at the start is fired for that very time. */
  lemma {:induction false} LegalInOrder<A>(due: map<A, nat>, now: nat, fired: seq<Fired<A>>,
    react: nat -> Reaction, n: nat, end: map<A, nat>)
    requires Legal(due, now, fired, react, n, end)
    requires forall k :: react(k).Rearm? ==> 0 < react(k).delay
    ensures forall i :: 0 <= i < |fired| ==> 0 <= fired[i].offset
    ensures forall i, j :: 0 <= i < j < |fired| ==> fired[i].offset >= fired[j].offset
    ensures forall i, a :: 0 <= i < |fired| && a in due && (forall b :: b in due ==> due[a] <= due[b]) ==>
      due[a] <= now - fired[i].offset
    decreases |fired|
  {
    if fired != [] {
      var a := fired[0].alarm;
      var next, rest := After(due, a, due[a], react(n)), fired[1..];
      LegalNotBefore(due, now, fired, react, n, end, due[a]);
      LegalInOrder(next, now, rest, react, n + 1, end);
      hide Legal, After;
      assert forall i :: 1 <= i < |fired| ==> fired[i] == rest[i - 1];
    }
  }

  /** Every alarm due at the start fires with exactly the delay it then has; later ones are left alone. */
  lemma {:induction false} LegalFiresDue<A>(due: map<A, nat>, now: nat, fired: seq<Fired<A>>,
    react: nat -> Reaction, n: nat, end: map<A, nat>, a: A)
    requires Legal(due, now, fired, react, n, end) && a in due
    ensures due[a] <= now ==> exists i :: 0 <= i < |fired| && fired[i] == Fired(a, now - due[a])
    ensures now < due[a] ==> a in end && end[a] == due[a] && forall i :: 0 <= i < |fired| ==> fired[i].alarm != a
    decreases |fired|
  {
    if fired != [] {
      var b := fired[0].alarm;
      if a != b {
        LegalFiresDue(After(due, b, due[b], react(n)), now, fired[1..], react, n + 1, end, a);
        if due[a] <= now {
          var i :| 0 <= i < |fired[1..]| && fired[1..][i] == Fired(a, now - due[a]);
          assert fired[i + 1] == Fired(a, now - due[a]);
        }
      } else {
        assert fired[0] == Fired(a, now - due[a]);
      }
    }
  }

  /** At the end nothing is due, so the loop condition is false for this clock value. */
  lemma {:induction false} LegalLeavesLater<A>(due: map<A, nat>, now: nat, fired: seq<Fired<A>>,
    react: nat -> Reaction, n: nat, end: map<A, nat>)
    requires Legal(due, now, fired, react, n, end)
    ensures forall a :: a in end ==> now < end[a]
    decreases |fired|
  {
    if fired != [] {
      var b := fired[0].alarm;
      LegalLeavesLater(After(due, b, due[b], react(n)), now, fired[1..], react, n + 1, end);
    }
  }
}
