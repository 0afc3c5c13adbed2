/**
 * The pending-alarm queue of an alarm context, on values: what setting,
 * unsetting, time-warping and dispatching do to the pending array and to the
 * cached next alarm.  The class in AlarmContext.dfy is proved against it.
 *
 * `top` is the largest value of the clock type.  The emulator's CLOCK is 32
 * bits wide; the same functions at a larger `top` describe a clock that is
 * wide enough never to need pulling back.
 */
module AlarmQueue {
  const TOP: nat := 0xffff_ffff
  const CAPACITY: nat := 256

  datatype Pending<A> = Pending(alarm: A, clk: nat)

  /** The pending array in array order, with the cached clock and index of the next alarm. */
  datatype Context<A> = Context(pending: seq<Pending<A>>, nextClk: nat, nextIdx: int)

  // ---------------------------------------------------------------- operations

  /** Rescans from entry i on: the last entry that is at most everything seen so far wins. */
  function Scan<A>(p: seq<Pending<A>>, i: nat, clk: nat, idx: int): (best: (nat, int))
    requires i <= |p|
    decreases |p| - i
  {
    if i == |p| then (clk, idx)
    else if p[i].clk <= clk then Scan(p, i + 1, p[i].clk, i)
    else Scan(p, i + 1, clk, idx)
  }

  function Rescan<A>(c: Context<A>, top: nat): Context<A> {
    var best := Scan(c.pending, 0, top, c.nextIdx);
    Context(c.pending, best.0, best.1)
  }

  /** The array position of an alarm, or -1. */
  function IndexOf<A(==)>(p: seq<Pending<A>>, a: A): (i: int)
    ensures -1 <= i < |p|
    ensures i >= 0 ==> p[i].alarm == a
    ensures i < 0 ==> forall k :: 0 <= k < |p| ==> p[k].alarm != a
  {
    if p == [] then -1
    else if p[|p| - 1].alarm == a then |p| - 1
    else IndexOf(p[..|p| - 1], a)
  }

  function SetNew<A>(c: Context<A>, a: A, clk: nat): Context<A> {
    if |c.pending| >= CAPACITY then c
    else if clk < c.nextClk then Context(c.pending + [Pending(a, clk)], clk, |c.pending|)
    else Context(c.pending + [Pending(a, clk)], c.nextClk, c.nextIdx)
  }

  function Reset<A>(c: Context<A>, idx: nat, a: A, clk: nat, top: nat): Context<A>
    requires idx < |c.pending|
  {
    var d := Context(c.pending[idx := Pending(a, clk)], c.nextClk, c.nextIdx);
    if c.nextClk > clk || idx == c.nextIdx then Rescan(d, top) else d
  }

  function Set<A(==)>(c: Context<A>, a: A, clk: nat, top: nat): Context<A> {
    var idx := IndexOf(c.pending, a);
    if idx < 0 then SetNew(c, a, clk) else Reset(c, idx, a, clk, top)
  }

  /** The array after the last entry has moved into the hole at idx. */
  function SwapRemove<A>(p: seq<Pending<A>>, idx: nat): seq<Pending<A>>
    requires idx < |p|
  {
    var last := |p| - 1;
    if last == idx then p[..last] else p[..last][idx := p[last]]
  }

  function Remove<A>(c: Context<A>, idx: nat, top: nat): Context<A>
    requires idx < |c.pending|
  {
    if |c.pending| > 1 then
      var last := |c.pending| - 1;
      var d := Context(SwapRemove(c.pending, idx), c.nextClk, c.nextIdx);
      if c.nextIdx == idx then Rescan(d, top)
      else if c.nextIdx == last then d.(nextIdx := idx)
      else d
    else
      Context([], top, -1)
  }

  function Unset<A(==)>(c: Context<A>, a: A, top: nat): Context<A> {
    var idx := IndexOf(c.pending, a);
    if idx < 0 then c else Remove(c, idx, top)
  }

  /** Arithmetic in the clock type. */
  function Wrap(x: int, top: nat): (clk: nat)
    ensures clk <= top
    ensures 0 <= x <= top ==> clk == x
    ensures -(top as int) <= x < 0 ==> clk == x + top + 1
  {
    x % (top + 1)
  }

  function Warped(clk: nat, amount: nat, direction: int, top: nat): nat {
    if direction > 0 then Wrap(clk + amount, top) else Wrap(clk - amount, top)
  }

  function Warp<A>(c: Context<A>, amount: nat, direction: int, top: nat): Context<A> {
    if direction == 0 then c
    else Context(
      seq(|c.pending|, i requires 0 <= i < |c.pending| =>
        Pending(c.pending[i].alarm, Warped(c.pending[i].clk, amount, direction, top))),
      Warped(c.nextClk, amount, direction, top), c.nextIdx)
  }

  // ---------------------------------------------------------------- what it represents

  ghost predicate Distinct<A>(p: seq<Pending<A>>) {
    forall i, j :: 0 <= i < j < |p| ==> p[i].alarm != p[j].alarm
  }

  /** The queue as a map from pending alarms to the times they are due. */
  ghost function Due<A>(p: seq<Pending<A>>): (m: map<A, nat>)
    ensures forall i :: 0 <= i < |p| ==> p[i].alarm in m
    ensures forall a :: a in m ==> IndexOf(p, a) >= 0 && m[a] == p[IndexOf(p, a)].clk
  {
    map a | a in (set i | 0 <= i < |p| :: p[i].alarm) :: p[IndexOf(p, a)].clk
  }

  /** The cached clock is the least pending clock, or `top` when nothing is pending. */
  ghost predicate ClockIsLeast<A>(c: Context<A>, top: nat) {
    && c.nextClk <= top
    && (forall i :: 0 <= i < |c.pending| ==> c.nextClk <= c.pending[i].clk <= top)
    && (c.nextClk < top ==> NamesEntry(c))
  }

  /** The cached index names an entry that is due at the cached clock. */
  predicate NamesEntry<A>(c: Context<A>) {
    0 <= c.nextIdx < |c.pending| && c.pending[c.nextIdx].clk == c.nextClk
  }

  ghost predicate Ok<A>(c: Context<A>, top: nat) {
    Distinct(c.pending) && |c.pending| <= CAPACITY && ClockIsLeast(c, top)
  }

  /** The stronger statement about the cache: some pending alarm is always named. */
  predicate Named<A>(c: Context<A>) {
    c.pending != [] ==> NamesEntry(c)
  }

  // ---------------------------------------------------------------- the scan

  lemma {:induction false} ScanFindsLeast<A>(p: seq<Pending<A>>, i: nat, clk: nat, idx: int)
    requires i <= |p|
    ensures var best := Scan(p, i, clk, idx);
      && best.0 <= clk
      && (forall k :: i <= k < |p| ==> best.0 <= p[k].clk)
      && (best == (clk, idx) || (i <= best.1 < |p| && p[best.1].clk == best.0))
      && ((exists k :: i <= k < |p| && p[k].clk <= clk) ==> i <= best.1 < |p| && p[best.1].clk == best.0)
    decreases |p| - i
  {
    if i < |p| {
      if p[i].clk <= clk {
        ScanFindsLeast(p, i + 1, p[i].clk, i);
      } else {
        ScanFindsLeast(p, i + 1, clk, idx);
      }
    }
  }

  lemma RescanOk<A>(c: Context<A>, top: nat)
    requires forall i :: 0 <= i < |c.pending| ==> c.pending[i].clk <= top
    ensures ClockIsLeast(Rescan(c, top), top) && Named(Rescan(c, top))
  {
    ScanFindsLeast(c.pending, 0, top, c.nextIdx);
    if c.pending != [] {
      assert c.pending[0].clk <= top;
    }
  }

  /** No later entry is as early as the one a rescan names: of equal clocks the last one is next. */
  lemma {:induction false} ScanNamesLast<A>(p: seq<Pending<A>>, i: nat, clk: nat, idx: int)
    requires i <= |p| && idx < i
    ensures var best := Scan(p, i, clk, idx); forall j :: i <= j < |p| && best.1 < j ==> best.0 < p[j].clk
    ensures Scan(p, i, clk, idx).0 <= clk && idx <= Scan(p, i, clk, idx).1
    decreases |p| - i
  {
    if i < |p| {
      if p[i].clk <= clk {
        ScanNamesLast(p, i + 1, p[i].clk, i);
      } else {
        ScanNamesLast(p, i + 1, clk, idx);
      }
    }
  }

  lemma RescanNamesLast<A>(c: Context<A>, top: nat)
    requires c.pending != [] && forall i :: 0 <= i < |c.pending| ==> c.pending[i].clk <= top
    ensures var d := Rescan(c, top); forall j :: 0 <= j < |c.pending| && d.nextIdx < j ==> d.nextClk < c.pending[j].clk
  {
    ScanNamesLast(c.pending, 1, c.pending[0].clk, 0);
  }

  lemma IndexOfUnique<A>(p: seq<Pending<A>>, i: nat)
    requires Distinct(p) && i < |p|
    ensures IndexOf(p, p[i].alarm) == i
  {}

  lemma IndexOfReplaced<A>(p: seq<Pending<A>>, idx: nat, clk: nat, x: A)
    requires Distinct(p) && idx < |p|
    ensures IndexOf(p[idx := Pending(p[idx].alarm, clk)], x) == IndexOf(p, x)
  {
    var q, i := p[idx := Pending(p[idx].alarm, clk)], IndexOf(p, x);
    assert forall k :: 0 <= k < |p| ==> q[k].alarm == p[k].alarm;
    if i >= 0 {
      assert q[i].alarm == x;
      IndexOfUnique(q, i);
    }
  }

  lemma IndexOfAppended<A>(p: seq<Pending<A>>, a: A, clk: nat, x: A)
    ensures IndexOf(p + [Pending(a, clk)], x) == if x == a then |p| else IndexOf(p, x)
  {
    assert (p + [Pending(a, clk)])[..|p|] == p;
  }

  lemma SwapRemovedDistinct<A>(p: seq<Pending<A>>, idx: nat)
    requires Distinct(p) && idx < |p|
    ensures Distinct(SwapRemove(p, idx))
  {}

  lemma IndexOfSwapRemoved<A>(p: seq<Pending<A>>, idx: nat, x: A)
    requires Distinct(p) && idx < |p|
    ensures IndexOf(SwapRemove(p, idx), x) ==
      if x == p[idx].alarm then -1 else if IndexOf(p, x) == |p| - 1 then idx else IndexOf(p, x)
  {
    SwapRemovedDistinct(p, idx);
    hide IndexOf, Distinct;
    var q, i, j := SwapRemove(p, idx), IndexOf(p, x), IndexOf(SwapRemove(p, idx), x);
    IndexOfUnique(p, idx);
    if j >= 0 {
      IndexOfUnique(p, if j == idx then |p| - 1 else j);
    } else if i >= 0 && i != idx {
      IndexOfUnique(q, if i == |p| - 1 then idx else i);
    }
  }

  // ---------------------------------------------------------------- invariant

  /** Setting, new or again, keeps the array duplicate-free and the cache right. */
  lemma SetKeepsOk<A>(c: Context<A>, a: A, clk: nat, top: nat)
    requires Ok(c, top) && clk <= top
    ensures Ok(Set(c, a, clk, top), top)
    ensures Named(c) && (c.pending != [] || clk < top) ==> Named(Set(c, a, clk, top))
  {
    var idx := IndexOf(c.pending, a);
    if idx >= 0 {
      RescanOk(Context(c.pending[idx := Pending(a, clk)], c.nextClk, c.nextIdx), top);
    }
  }

  /** On an empty queue the strict comparison leaves the index alone for the largest clock. */
  lemma SetOnEmptyNames<A>(c: Context<A>, a: A, clk: nat, top: nat)
    requires Ok(c, top) && c.pending == [] && clk <= top
    ensures Named(Set(c, a, clk, top)) <==> clk < top || c.nextIdx == 0
  {
    assert IndexOf(c.pending, a) < 0;
  }

  /** Unsetting keeps both, also when the entry moved into the hole was the cached least. */
  lemma UnsetKeepsOk<A>(c: Context<A>, a: A, top: nat)
    requires Ok(c, top)
    ensures Ok(Unset(c, a, top), top)
    ensures Named(c) ==> Named(Unset(c, a, top))
  {
    var idx := IndexOf(c.pending, a);
    if idx >= 0 && |c.pending| > 1 {
      RescanOk(Context(SwapRemove(c.pending, idx), c.nextClk, c.nextIdx), top);
    }
  }

  /** Setting another alarm for no earlier leaves the next alarm the next, where it stands. */
  lemma SetLeavesNext<A>(c: Context<A>, a: A, clk: nat, top: nat)
    requires Ok(c, top) && NamesEntry(c) && a != c.pending[c.nextIdx].alarm && c.nextClk <= clk <= top
    ensures var d := Set(c, a, clk, top);
      d.nextClk == c.nextClk && d.nextIdx == c.nextIdx && NamesEntry(d) && d.pending[d.nextIdx] == c.pending[c.nextIdx]
  {
    IndexOfUnique(c.pending, c.nextIdx);
    hide Scan, Distinct, ClockIsLeast;
  }

  /** Unsetting another alarm leaves it the next too, wherever it moves. */
  lemma UnsetLeavesNext<A>(c: Context<A>, a: A, top: nat)
    requires Ok(c, top) && NamesEntry(c) && a != c.pending[c.nextIdx].alarm
    ensures var d := Unset(c, a, top);
      d.nextClk == c.nextClk && NamesEntry(d) && d.pending[d.nextIdx] == c.pending[c.nextIdx]
  {
    IndexOfUnique(c.pending, c.nextIdx);
    hide Scan, Distinct, ClockIsLeast;
  }

  /** The last alarm out leaves the largest clock and no index. */
  lemma UnsetLast<A>(c: Context<A>, a: A, top: nat)
    requires |c.pending| == 1
    ensures Unset(c, a, top) == if c.pending[0].alarm == a then Context([], top, -1) else c
  {
    assert c.pending[..0] == [];
  }

  // ---------------------------------------------------------------- meaning

  lemma DueAt<A>(p: seq<Pending<A>>, i: nat)
    requires Distinct(p) && i < |p|
    ensures p[i].alarm in Due(p) && Due(p)[p[i].alarm] == p[i].clk
  {
    IndexOfUnique(p, i);
  }

  /** The map is settled by the entries it has to agree with. */
  lemma DueIs<A>(p: seq<Pending<A>>, m: map<A, nat>)
    requires Distinct(p)
    requires forall i :: 0 <= i < |p| ==> p[i].alarm in m && m[p[i].alarm] == p[i].clk
    requires forall a :: a in m ==> IndexOf(p, a) >= 0
    ensures Due(p) == m
  {
    forall i | 0 <= i < |p| ensures Due(p)[p[i].alarm] == p[i].clk {
      DueAt(p, i);
    }
  }

  lemma ReplacedMeans<A>(p: seq<Pending<A>>, idx: nat, clk: nat)
    requires Distinct(p) && idx < |p|
    ensures Distinct(p[idx := Pending(p[idx].alarm, clk)])
    ensures Due(p[idx := Pending(p[idx].alarm, clk)]) == Due(p)[p[idx].alarm := clk]
  {
    hide Due, IndexOf;
    var a, q := p[idx].alarm, p[idx := Pending(p[idx].alarm, clk)];
    forall i | 0 <= i < |p| ensures p[i].alarm == q[i].alarm && Due(p)[q[i].alarm] == p[i].clk {
      DueAt(p, i);
    }
    forall b | b in Due(p)[a := clk] ensures IndexOf(q, b) >= 0 {
      assert q[if b == a then idx else IndexOf(p, b)].alarm == b;
    }
    DueIs(q, Due(p)[a := clk]);
  }

  lemma AppendedMeans<A>(p: seq<Pending<A>>, a: A, clk: nat)
    requires Distinct(p) && IndexOf(p, a) < 0
    ensures Distinct(p + [Pending(a, clk)])
    ensures Due(p + [Pending(a, clk)]) == Due(p)[a := clk]
  {
    hide Due, IndexOf;
    var q := p + [Pending(a, clk)];
    forall i | 0 <= i < |p| ensures q[i] == p[i] && Due(p)[q[i].alarm] == p[i].clk {
      DueAt(p, i);
    }
    forall b | b in Due(p)[a := clk] ensures IndexOf(q, b) >= 0 {
      assert q[if b == a then |p| else IndexOf(p, b)].alarm == b;
    }
    DueIs(q, Due(p)[a := clk]);
  }

  lemma SwapRemovedMeans<A>(p: seq<Pending<A>>, idx: nat)
    requires Distinct(p) && idx < |p|
    ensures Distinct(SwapRemove(p, idx))
    ensures Due(SwapRemove(p, idx)) == Due(p) - {p[idx].alarm}
  {
    hide Due, IndexOf;
    var a, q := p[idx].alarm, SwapRemove(p, idx);
    forall i | 0 <= i < |p| ensures Due(p)[p[i].alarm] == p[i].clk {
      DueAt(p, i);
    }
    forall b | b in Due(p) - {a} ensures IndexOf(q, b) >= 0 {
      var i := IndexOf(p, b);
      assert q[if i == |p| - 1 then idx else i].alarm == b;
    }
    DueIs(q, Due(p) - {a});
  }

  /** A set records the new time of that alarm and of no other, unless the array is full. */
  lemma SetMeans<A>(c: Context<A>, a: A, clk: nat, top: nat)
    requires Ok(c, top) && clk <= top
    ensures Due(Set(c, a, clk, top).pending) ==
      if a !in Due(c.pending) && |c.pending| >= 256 then Due(c.pending) else Due(c.pending)[a := clk]
  {
    hide Due, ClockIsLeast, NamesEntry, Scan;
    var idx := IndexOf(c.pending, a);
    if idx >= 0 {
      ReplacedMeans(c.pending, idx, clk);
      DueAt(c.pending, idx);
    } else {
      AppendedMeans(c.pending, a, clk);
    }
  }

  /** An unset forgets that alarm and no other. */
  lemma UnsetMeans<A>(c: Context<A>, a: A, top: nat)
    requires Ok(c, top)
    ensures Due(Unset(c, a, top).pending) == Due(c.pending) - {a}
  {
    hide Due, ClockIsLeast, NamesEntry, Scan;
    var idx := IndexOf(c.pending, a);
    if idx >= 0 {
      SwapRemovedMeans(c.pending, idx);
    }
  }

  /** The next alarm is one that is due soonest, and one is due exactly when the cache says so. */
  lemma NextIsEarliest<A>(c: Context<A>, now: nat, top: nat)
    requires Ok(c, top) && now < top
    ensures now >= c.nextClk <==> exists a :: a in Due(c.pending) && Due(c.pending)[a] <= now
    ensures now >= c.nextClk ==>
      && NamesEntry(c)
      && Due(c.pending)[c.pending[c.nextIdx].alarm] == c.nextClk
      && forall b :: b in Due(c.pending) ==> c.nextClk <= Due(c.pending)[b]
  {
    if now >= c.nextClk {
      DueAt(c.pending, c.nextIdx);
    }
  }

  // ---------------------------------------------------------------- time warp

  /** Warping forward adds and warping back takes off, as long as no clock leaves the type. */
  lemma WarpMeans<A>(c: Context<A>, amount: nat, direction: int, top: nat)
    requires direction > 0 ==> c.nextClk + amount <= top && forall e <- c.pending :: e.clk + amount <= top
    requires direction < 0 ==> amount <= c.nextClk <= top && forall e <- c.pending :: amount <= e.clk <= top
    ensures var d, shift := Warp(c, amount, direction, top),
        if direction > 0 then amount else if direction < 0 then -(amount as int) else 0;
      && |d.pending| == |c.pending| && d.nextClk == c.nextClk + shift && d.nextIdx == c.nextIdx
      && forall i :: 0 <= i < |c.pending| ==>
           d.pending[i].alarm == c.pending[i].alarm && d.pending[i].clk == c.pending[i].clk + shift
  {
    hide Wrap;
    var d := Warp(c, amount, direction, top);
    forall i | 0 <= i < |c.pending| && direction != 0
      ensures d.pending[i] == Pending(c.pending[i].alarm, Warped(c.pending[i].clk, amount, direction, top)) {
      assert c.pending[i] in c.pending;
    }
  }

  /** Subtracting wraps exactly the clocks below the amount. */
  lemma WarpedBack(clk: nat, sub: nat, top: nat)
    requires clk <= top && sub <= top
    ensures Warped(clk, sub, -1, top) == if sub <= clk then clk - sub else clk - sub + top + 1
  {
    hide Wrap;
  }

  ghost predicate WarpsTogether<A>(c: Context<A>, sub: nat) {
    c.pending != [] && (sub <= c.nextClk || forall i :: 0 <= i < |c.pending| ==> c.pending[i].clk < sub)
  }

  /**
   * Pulling the clocks back keeps the queue in order exactly when
   * something is pending and either no pending clock wraps or all of them do.
   */
  lemma WarpBackKeepsLeast<A>(c: Context<A>, sub: nat, top: nat)
    requires Ok(c, top) && Named(c) && sub <= top
    ensures Ok(Warp(c, sub, -1, top), top) <==>
      sub == 0 || WarpsTogether(c, sub)
  {
    hide Warped;
    WarpedBack(c.nextClk, sub, top);
    forall i | 0 <= i < |c.pending| ensures
      var w := Warped(c.pending[i].clk, sub, -1, top);
      w == if sub <= c.pending[i].clk then c.pending[i].clk - sub else c.pending[i].clk - sub + top + 1
    {
      WarpedBack(c.pending[i].clk, sub, top);
    }
    var d := Warp(c, sub, -1, top);
    if c.pending != [] {
      assert d.pending[c.nextIdx].clk == d.nextClk;
      if sub > c.nextClk && !(forall i :: 0 <= i < |c.pending| ==> c.pending[i].clk < sub) {
        var i :| 0 <= i < |c.pending| && sub <= c.pending[i].clk;
        assert d.pending[i].clk < d.nextClk;
      }
    }
  }
}
