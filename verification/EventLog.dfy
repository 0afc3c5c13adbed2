/**
 * The event history: recording events against a clock that is pulled back,
 * writing them to a snapshot module and reading them back with one timestamp
 * inserted for every machine second.
 */
module EventLog {
  import ClkGuard

  type Byte = b: int | 0 <= b < 256

  const WORD: int := 0x1_0000_0000
  const CLOCK_MAX: nat := 0xffff_ffff

  const LIST_END: nat := 0
  const INITIAL: nat := 5
  const RESETCPU: nat := 8
  const TIMESTAMP: nat := 9
  const OVERFLOW: nat := 11
  const JOYSTICK_DELAY: nat := 13
  const KEYBOARD_CLEAR: nat := 15
  const RESOURCE: nat := 16
  const START_MODE_RESET: nat := 2

  datatype Event = Event(kind: nat, clk: nat, data: seq<Byte>)

  // ---------------------------------------------------------------- the module as bytes

  predicate Storable(e: Event) {
    e.kind < WORD && e.clk < WORD && |e.data| < WORD
  }

  function Dword(x: nat): (b: seq<Byte>)
    ensures |b| == 4
  {
    [x % 0x100, x / 0x100 % 0x100, x / 0x10000 % 0x100, x / 0x1000000 % 0x100]
  }

  function DwordAt(b: seq<Byte>, p: nat): nat
    requires p + 4 <= |b|
  {
    b[p] as int + 0x100 * b[p + 1] as int + 0x10000 * b[p + 2] as int + 0x1000000 * b[p + 3] as int
  }

  lemma Bytes32(x: nat)
    requires x < WORD
    ensures x % 0x100 + 0x100 * (x / 0x100 % 0x100) + 0x10000 * (x / 0x10000 % 0x100) +
      0x1000000 * (x / 0x1000000 % 0x100) == x
  {
    var a := x / 0x100;
    var c := a / 0x100;
    assert x / 0x10000 == c && x / 0x1000000 == c / 0x100;
  }

  lemma DwordRoundTrip(x: nat, b: seq<Byte>, p: nat)
    requires x < WORD && p + 4 <= |b| && b[p..p + 4] == Dword(x)
    ensures DwordAt(b, p) == x
  {
    Bytes32(x);
    var d := Dword(x);
    assert d[0] as int + 0x100 * d[1] as int + 0x10000 * d[2] as int + 0x1000000 * d[3] as int == x;
    hide Dword;
    assert b[p..p + 4][0] == d[0] && b[p..p + 4][1] == d[1] && b[p..p + 4][2] == d[2] && b[p..p + 4][3] == d[3];
  }

  function EventBytes(e: Event): seq<Byte> {
    Dword(e.kind) + Dword(e.clk) + Dword(|e.data|) + e.data
  }

  function Number32(b: seq<Byte>): nat
    requires |b| == 4
  {
    b[0] as int + 256 * b[1] as int + 65536 * b[2] as int + 16777216 * b[3] as int
  }

  /** An event is three numbers of four bytes, the lowest byte first, and its data. */
  lemma EventLayout(e: Event)
    requires Storable(e)
    ensures var b := EventBytes(e);
      && |b| == 12 + |e.data| && Number32(b[..4]) == e.kind && Number32(b[4..8]) == e.clk
      && Number32(b[8..12]) == |e.data| && b[12..] == e.data
  {
    Bytes32(e.kind);
    Bytes32(e.clk);
    Bytes32(|e.data|);
    var b := EventBytes(e);
    assert b[..4] == Dword(e.kind) && b[4..8] == Dword(e.clk) && b[8..12] == Dword(|e.data|) && b[12..] == e.data;
  }

  /** Everything but timestamps is written. */
  function ModuleBytes(es: seq<Event>): seq<Byte> {
    if es == [] then []
    else (if es[0].kind == TIMESTAMP then [] else EventBytes(es[0])) + ModuleBytes(es[1..])
  }

  /** The events found, and whether the last of them is a list end rather than a read that failed. */
  datatype Parsed = Parsed(events: seq<Event>, complete: bool)

  /** Timestamps in the module are thrown away, header only. */
  function Parse(b: seq<Byte>, p: nat): Parsed
    decreases |b| - p
  {
    if p + 12 > |b| then Parsed([], false)
    else
      var kind, clk, size := DwordAt(b, p), DwordAt(b, p + 4), DwordAt(b, p + 8);
      if kind == TIMESTAMP then Parse(b, p + 12)
      else if p + 12 + size > |b| then Parsed([], false)
      else
        var e := Event(kind, clk, b[p + 12..p + 12 + size]);
        if kind == LIST_END then Parsed([e], true)
        else
          var rest := Parse(b, p + 12 + size);
          Parsed([e] + rest.events, rest.complete)
  }

  function Strip(es: seq<Event>): seq<Event> {
    if es == [] then []
    else (if es[0].kind == TIMESTAMP then [] else [es[0]]) + Strip(es[1..])
  }

  /** The history up to and including its first list end. */
  function UpToEnd(es: seq<Event>): seq<Event> {
    if es == [] then [] else if es[0].kind == LIST_END then [es[0]] else [es[0]] + UpToEnd(es[1..])
  }

  predicate HasEnd(es: seq<Event>) {
    exists i :: 0 <= i < |es| && es[i].kind == LIST_END
  }

  lemma Slices(b: seq<Byte>, p: nat, w: seq<Byte>, i: nat, j: nat)
    requires p + |w| <= |b| && b[p..p + |w|] == w && i <= j <= |w|
    ensures b[p + i..p + j] == w[i..j]
  {
    assert forall k :: 0 <= k < |w| ==> w[k] == b[p + k];
    assert b[p + i..p + j] == w[i..j];
  }

  lemma EventParses(e: Event, b: seq<Byte>, p: nat)
    requires Storable(e) && p + |EventBytes(e)| <= |b| && b[p..p + |EventBytes(e)|] == EventBytes(e)
    ensures |EventBytes(e)| == 12 + |e.data| && p + 12 + |e.data| <= |b|
    ensures DwordAt(b, p) == e.kind && DwordAt(b, p + 4) == e.clk && DwordAt(b, p + 8) == |e.data|
    ensures b[p + 12..p + 12 + |e.data|] == e.data
  {
    hide Dword, DwordAt;
    var w := EventBytes(e);
    assert w[0..4] == Dword(e.kind) && w[4..8] == Dword(e.clk) && w[8..12] == Dword(|e.data|) && w[12..|w|] == e.data;
    Slices(b, p, w, 0, 4);
    Slices(b, p, w, 4, 8);
    Slices(b, p, w, 8, 12);
    Slices(b, p, w, 12, |w|);
    DwordRoundTrip(e.kind, b, p);
    DwordRoundTrip(e.clk, b, p + 4);
    DwordRoundTrip(|e.data|, b, p + 8);
  }

  lemma ParseStep(e: Event, before: seq<Byte>, rest: seq<Byte>)
    requires Storable(e) && e.kind != TIMESTAMP
    ensures var b := before + EventBytes(e) + rest;
      Parse(b, |before|) ==
        if e.kind == LIST_END then Parsed([e], true)
        else
          var more := Parse(b, |before + EventBytes(e)|);
          Parsed([e] + more.events, more.complete)
  {
    hide EventBytes, DwordAt;
    EventParses(e, before + EventBytes(e) + rest, |before|);
  }

  /** What is written is found again, up to the first list end and without the timestamps. */
  lemma {:induction false} ParseModule(es: seq<Event>, before: seq<Byte>)
    requires HasEnd(es) && forall i :: 0 <= i < |es| ==> Storable(es[i])
    ensures Parse(before + ModuleBytes(es), |before|) == Parsed(UpToEnd(Strip(es)), true)
    decreases |es|
  {
    hide EventBytes, Parse;
    var e, rest := es[0], ModuleBytes(es[1..]);
    if e.kind != LIST_END {
      var i :| 0 <= i < |es| && es[i].kind == LIST_END;
      assert es[1..][i - 1].kind == LIST_END;
    }
    if e.kind == TIMESTAMP {
      ParseModule(es[1..], before);
      assert [] + rest == rest && [] + Strip(es[1..]) == Strip(es[1..]);
    } else {
      var w := EventBytes(e);
      assert before + ModuleBytes(es) == before + w + rest;
      ParseStep(e, before, rest);
      if e.kind != LIST_END {
        ParseModule(es[1..], before + w);
      }
      assert ([e] + Strip(es[1..]))[1..] == Strip(es[1..]);
    }
  }

  // ---------------------------------------------------------------- timestamps

  /** Ticks in a machine second, the clock guard's maximum and what it takes off the clock. */
  datatype Clocks = Clocks(second: nat, guardMax: nat, sub: nat)

  /** The guard leaves its reserve below the maximum, and a second above the maximum still fits the clock. */
  predicate ValidClocks(c: Clocks) {
    0 < c.second && c.guardMax + c.second < CLOCK_MAX && c.sub + ClkGuard.SUB_MIN <= c.guardMax
  }

  /** Every clock guard gives such clocks for seconds that fit. */
  lemma GuardClocks(second: nat, g: ClkGuard.Guard)
    requires g.Guard? && ClkGuard.ValidGuard(g) && 0 < second && g.max + second < CLOCK_MAX
    ensures ValidClocks(Clocks(second, g.max, ClkGuard.ClockSub(g)))
  {
    var _ := ClkGuard.ClockSubFits(g);
  }

  /** Leaves room for one more second in the clock type, and an initial event says how it starts. */
  predicate Fits(e: Event, c: Clocks) {
    e.clk + c.second < CLOCK_MAX && (e.kind == INITIAL ==> e.data != [])
  }

  /** Timestamps are due up to here before the event: an overflow comes after the guard's maximum. */
  function Limit(e: Event, c: Clocks): nat {
    if e.kind == OVERFLOW && c.guardMax > e.clk then c.guardMax else e.clk
  }

  function Stamp(clk: nat): Event {
    Event(TIMESTAMP, clk, [])
  }

  function Stamps(next: nat, limit: nat, second: nat): seq<Event>
    requires second > 0
    decreases limit - next
  {
    if next >= limit then [] else [Stamp(next)] + Stamps(next + second, limit, second)
  }

  /** When the next timestamp is due after those. */
  function After(next: nat, limit: nat, second: nat): (r: nat)
    requires second > 0
    ensures limit <= r && next <= r && (r == next || r < limit + second)
    decreases limit - next
  {
    if next >= limit then next else After(next + second, limit, second)
  }

  /** Where the timestamps stand before an event: unset until the first one. */
  function Start(next: nat, e: Event): nat {
    if next == CLOCK_MAX then e.clk else next
  }

  /** The timestamps that go in before an event, and when the next one is due after it. */
  function Before(next: nat, e: Event, c: Clocks): seq<Event>
    requires ValidClocks(c)
  {
    if e.kind == INITIAL then [] else Stamps(Start(next, e), Limit(e, c), c.second)
  }

  function Next(next: nat, e: Event, c: Clocks): (r: nat)
    requires ValidClocks(c) && Fits(e, c)
    ensures next <= CLOCK_MAX ==> r < CLOCK_MAX
  {
    if e.kind == INITIAL then (if e.data[0] == START_MODE_RESET then 0 else e.clk)
    else
      var n := After(Start(next, e), Limit(e, c), c.second);
      if e.kind == OVERFLOW then n - c.sub else if e.kind == RESETCPU then n - e.clk else n
  }

  /** The history with its timestamps. */
  function Stamped(es: seq<Event>, next: nat, c: Clocks): seq<Event>
    requires ValidClocks(c) && forall i :: 0 <= i < |es| ==> Fits(es[i], c)
  {
    if es == [] then [] else Before(next, es[0], c) + [es[0]] + Stamped(es[1..], Next(next, es[0], c), c)
  }

  lemma {:induction false} StampsStrip(next: nat, limit: nat, second: nat, rest: seq<Event>)
    requires second > 0
    ensures Strip(Stamps(next, limit, second) + rest) == Strip(rest)
    decreases limit - next
  {
    if next < limit {
      StampsStrip(next + second, limit, second, rest);
      var more := Stamps(next + second, limit, second);
      assert [Stamp(next)] + more + rest == [Stamp(next)] + (more + rest);
      assert [] + Strip(more + rest) == Strip(more + rest);
    } else {
      assert [] + rest == rest;
    }
  }

  /** Inserting timestamps and dropping them again gives back the history. */
  lemma {:induction false} StampedStrips(es: seq<Event>, next: nat, c: Clocks)
    requires ValidClocks(c) && forall i :: 0 <= i < |es| ==> Fits(es[i], c)
    ensures Strip(Stamped(es, next, c)) == Strip(es)
    decreases |es|
  {
    hide Next, Stamps, Limit, Start;
    if es != [] {
      var rest := Stamped(es[1..], Next(next, es[0], c), c);
      StampedStrips(es[1..], Next(next, es[0], c), c);
      var b := Before(next, es[0], c);
      assert b + [es[0]] + rest == b + ([es[0]] + rest);
      if es[0].kind != INITIAL {
        StampsStrip(Start(next, es[0]), Limit(es[0], c), c.second, [es[0]] + rest);
      } else {
        assert [] + ([es[0]] + rest) == [es[0]] + rest;
      }
      assert ([es[0]] + rest)[1..] == rest;
    }
  }

  // ---------------------------------------------------------------- true time

  /** What has been taken off the clock after an event: an overflow pulls it back, a reset starts it anew. */
  function BaseAfter(e: Event, base: int, c: Clocks): int {
    if e.kind == OVERFLOW then base + c.sub else if e.kind == RESETCPU then base + e.clk else base
  }

  /** The times of the timestamps in a stamped history, counting what overflows and resets took off the clock. */
  function StampTimes(es: seq<Event>, base: int, c: Clocks): seq<int> {
    if es == [] then []
    else if es[0].kind == TIMESTAMP then [base + es[0].clk] + StampTimes(es[1..], base, c)
    else StampTimes(es[1..], BaseAfter(es[0], base, c), c)
  }

  ghost predicate Progression(ts: seq<int>, start: int, second: nat) {
    forall i :: 0 <= i < |ts| ==> ts[i] == start + i * second
  }

  /** No second beginning; timestamps are not part of the history. */
  predicate Plain(e: Event) {
    e.kind != INITIAL && e.kind != TIMESTAMP
  }

  /** The timestamps before one event, followed by those of the rest. */
  lemma {:induction false} StampsProgress(next: nat, limit: nat, base: int, rest: seq<Event>, c: Clocks)
    requires ValidClocks(c) && Progression(StampTimes(rest, base, c), base + After(next, limit, c.second), c.second)
    ensures Progression(StampTimes(Stamps(next, limit, c.second) + rest, base, c), base + next, c.second)
    decreases limit - next
  {
    hide Progression;
    if next < limit {
      var more := Stamps(next + c.second, limit, c.second);
      StampsProgress(next + c.second, limit, base, rest, c);
      assert [Stamp(next)] + more + rest == [Stamp(next)] + (more + rest);
      ProgressionCons(base + next, StampTimes(more + rest, base, c), c.second);
    } else {
      assert [] + rest == rest;
    }
  }

  lemma ProgressionCons(start: int, ts: seq<int>, second: nat)
    requires Progression(ts, start + second, second)
    ensures Progression([start] + ts, start, second)
  {
    var all := [start] + ts;
    forall i | 0 <= i < |all| ensures all[i] == start + i * second {
      if i > 0 {
        assert all[i] == ts[i - 1] == start + second + (i - 1) * second;
        assert i * second == (i - 1) * second + second;
      }
    }
  }

  /** The inserted timestamps are one machine second apart in true time, across every overflow and reset. */
  lemma {:induction false} StampedProgress(es: seq<Event>, next: nat, base: int, c: Clocks)
    requires ValidClocks(c) && next < CLOCK_MAX
    requires forall i :: 0 <= i < |es| ==> Fits(es[i], c) && Plain(es[i])
    ensures Progression(StampTimes(Stamped(es, next, c), base, c), base + next, c.second)
    decreases |es|
  {
    hide After, Stamps, Progression;
    if es != [] {
      var e, n := es[0], Next(next, es[0], c);
      var b := BaseAfter(e, base, c);
      var rest := Stamped(es[1..], n, c);
      StampedProgress(es[1..], n, b, c);
      var tail := [e] + rest;
      assert tail[1..] == rest && StampTimes(tail, base, c) == StampTimes(rest, b, c);
      assert b + n == base + After(next, Limit(e, c), c.second);
      StampsProgress(next, Limit(e, c), base, tail, c);
      assert Before(next, e, c) + [e] + rest == Before(next, e, c) + tail;
    } else {
      NoStamps(base, c, next);
    }
  }

  lemma NoStamps(base: int, c: Clocks, next: nat)
    ensures Progression(StampTimes([], base, c), base + next, c.second)
  {}

  ghost predicate NoneBefore(ts: seq<int>, time: int) {
    forall i :: 0 <= i < |ts| ==> time <= ts[i]
  }

  /** Of a progression nothing is before a time exactly when its first is not, if there is one. */
  lemma FirstDecides(ts: seq<int>, start: int, second: nat, time: int)
    requires Progression(ts, start, second)
    ensures NoneBefore(ts, time) <==> ts == [] || time <= start
  {
    if ts != [] {
      assert ts[0] == start + 0 * second;
      forall i | 0 <= i < |ts| ensures start <= ts[i] {
        assert ts[i] == start + i * second && i * second >= 0;
      }
    }
  }

  lemma StampedOnce(es: seq<Event>, next: nat, c: Clocks)
    requires ValidClocks(c) && forall i :: 0 <= i < |es| ==> Fits(es[i], c)
    ensures Stamped(es, next, c) ==
      if es == [] then [] else Before(next, es[0], c) + [es[0]] + Stamped(es[1..], Next(next, es[0], c), c)
  {}

  /**
   * Nothing late: the timestamps after an event are not earlier than it is in
   * true time; after an overflow, not earlier than the guard's maximum before it.
   */
  ghost predicate Placed(es: seq<Event>, base: int, c: Clocks) {
    if es == [] then true
    else
      var e, b := es[0], BaseAfter(es[0], base, c);
      && (e.kind != TIMESTAMP ==>
          NoneBefore(StampTimes(es[1..], b, c), base + (if e.kind == OVERFLOW then c.guardMax else e.clk)))
      && Placed(es[1..], b, c)
  }

  lemma {:induction false} StampsPlaced(next: nat, limit: nat, base: int, rest: seq<Event>, c: Clocks)
    requires ValidClocks(c) && Placed(rest, base, c)
    ensures Placed(Stamps(next, limit, c.second) + rest, base, c)
    decreases limit - next
  {
    if next < limit {
      var more := Stamps(next + c.second, limit, c.second);
      StampsPlaced(next + c.second, limit, base, rest, c);
      assert [Stamp(next)] + more + rest == [Stamp(next)] + (more + rest);
    } else {
      assert [] + rest == rest;
    }
  }

  /** Every timestamp stands before all later events. */
  lemma {:induction false} StampedPlaced(es: seq<Event>, next: nat, base: int, c: Clocks)
    requires ValidClocks(c) && next < CLOCK_MAX
    requires forall i :: 0 <= i < |es| ==> Fits(es[i], c) && Plain(es[i])
    ensures Placed(Stamped(es, next, c), base, c)
    decreases |es|
  {
    hide After, Stamps, Progression, NoneBefore, Stamped;
    StampedOnce(es, next, c);
    if es != [] {
      var e, n, b := es[0], Next(next, es[0], c), BaseAfter(es[0], base, c);
      var rest := Stamped(es[1..], n, c);
      var tail := [e] + rest;
      StampedPlaced(es[1..], n, b, c);
      StampedProgress(es[1..], n, b, c);
      FirstDecides(StampTimes(rest, b, c), b + n, c.second, base + (if e.kind == OVERFLOW then c.guardMax else e.clk));
      assert tail[1..] == rest;
      assert Placed(tail, base, c);
      StampsPlaced(next, Limit(e, c), base, tail, c);
      assert Stamped(es, next, c) == Before(next, e, c) + tail;
    }
  }

  // ---------------------------------------------------------------- strict placement

  /** An overflow is recorded on the clock that has already been pulled back, a reset on the one that ends. */
  function TrueTime(e: Event, base: int, c: Clocks): int {
    if e.kind == OVERFLOW then base + c.sub + e.clk else base + e.clk
  }

  /** Every timestamp stands before all events that are later in true time. */
  ghost predicate StrictlyPlaced(es: seq<Event>, base: int, c: Clocks) {
    if es == [] then true
    else
      var e, b := es[0], BaseAfter(es[0], base, c);
      && (e.kind != TIMESTAMP ==> NoneBefore(StampTimes(es[1..], b, c), TrueTime(e, base, c)))
      && StrictlyPlaced(es[1..], b, c)
  }

  /** Strict placement is placement, for overflows that come no earlier than the guard's maximum. */
  lemma {:induction false} StrictIsPlaced(es: seq<Event>, base: int, c: Clocks)
    requires StrictlyPlaced(es, base, c) && forall e <- es :: e.kind == OVERFLOW ==> c.guardMax <= c.sub + e.clk
    ensures Placed(es, base, c)
    decreases |es|
  {
    if es != [] {
      StrictIsPlaced(es[1..], BaseAfter(es[0], base, c), c);
    }
  }

  /** The k-th second after the first. */
  function Second(first: int, k: nat, c: Clocks): int {
    first + k * c.second
  }

  /** Some event makes the reader put in a timestamp that is due then. */
  ghost predicate Reaches(es: seq<Event>, base: int, due: int, c: Clocks) {
    es != [] && (due < base + Limit(es[0], c) || Reaches(es[1..], BaseAfter(es[0], base, c), due, c))
  }

  /**
   * A timestamp due then misses an overflow: it falls between the guard's
   * maximum and the pull-back, no event up to the overflow makes the reader put
   * it in, and a later one does.
   */
  ghost predicate Misses(es: seq<Event>, base: int, due: int, c: Clocks) {
    && es != []
    && base + Limit(es[0], c) <= due
    && var b := BaseAfter(es[0], base, c);
      (MissesHere(es[0], base, due, c) && Reaches(es[1..], b, due, c)) || Misses(es[1..], b, due, c)
  }

  predicate MissesHere(e: Event, base: int, due: int, c: Clocks) {
    e.kind == OVERFLOW && due < TrueTime(e, base, c)
  }

  /** Some second, counted from the first, misses an overflow. */
  ghost predicate SomeMisses(es: seq<Event>, base: int, first: int, c: Clocks) {
    exists k: nat :: Misses(es, base, Second(first, k, c), c)
  }

  /** A timestamp is put in at all exactly when some event reaches the first one. */
  lemma {:induction false} StampsFollow(es: seq<Event>, next: nat, base: int, c: Clocks)
    requires ValidClocks(c) && next < CLOCK_MAX
    requires forall i :: 0 <= i < |es| ==> Fits(es[i], c) && Plain(es[i])
    ensures StampTimes(Stamped(es, next, c), base, c) != [] <==> Reaches(es, base, base + next, c)
    decreases |es|
  {
    hide Limit, Stamped, Stamps, After;
    StampedOnce(es, next, c);
    if es != [] {
      var e, n, b := es[0], Next(next, es[0], c), BaseAfter(es[0], base, c);
      var tail := [e] + Stamped(es[1..], n, c);
      assert tail[1..] == Stamped(es[1..], n, c);
      StampsBegin(next, Limit(e, c), c.second, tail);
      assert Stamped(es, next, c) == Stamps(next, Limit(e, c), c.second) + tail;
      if next >= Limit(e, c) {
        StampsFollow(es[1..], n, b, c);
      }
    }
  }

  lemma StampsBegin(next: nat, limit: nat, second: nat, rest: seq<Event>)
    requires second > 0
    ensures next >= limit ==> Stamps(next, limit, second) + rest == rest && After(next, limit, second) == next
    ensures next < limit ==> var all := Stamps(next, limit, second) + rest; all != [] && all[0] == Stamp(next)
  {}

  /** The seconds still to come after an event are those of the first one on that its limit does not cover. */
  lemma {:induction false} SecondsLeft(next: nat, limit: nat, base: int, first: int, c: Clocks) returns (m: nat)
    requires ValidClocks(c) && first == base + next
    ensures base + After(next, limit, c.second) == Second(first, m, c)
    ensures forall k: nat :: base + limit <= Second(first, k, c) ==> m <= k
    decreases limit - next
  {
    if next >= limit {
      m := 0;
    } else {
      var n := SecondsLeft(next + c.second, limit, base, first + c.second, c);
      m := n + 1;
      SecondShift(first, n, c);
      forall k: nat | base + limit <= Second(first, k, c) ensures m <= k {
        if k > 0 {
          SecondShift(first, k - 1, c);
        }
      }
    }
  }

  lemma SecondShift(first: int, k: nat, c: Clocks)
    ensures Second(first, k + 1, c) == Second(first + c.second, k, c)
  {}

  lemma SecondSum(first: int, m: nat, k: nat, c: Clocks)
    ensures Second(Second(first, m, c), k, c) == Second(first, m + k, c)
    ensures first <= Second(first, k, c)
  {
    assert m * c.second + k * c.second == (m + k) * c.second;
  }

  lemma {:induction false} ReachesEarlier(es: seq<Event>, base: int, due: int, later: int, c: Clocks)
    requires due <= later && Reaches(es, base, later, c)
    ensures Reaches(es, base, due, c)
    decreases |es|
  {
    if base + Limit(es[0], c) <= later {
      ReachesEarlier(es[1..], BaseAfter(es[0], base, c), due, later, c);
    }
  }

  /** Timestamps in front are no matter. */
  lemma {:induction false} StampsStrict(next: nat, limit: nat, base: int, rest: seq<Event>, c: Clocks)
    requires ValidClocks(c)
    ensures StrictlyPlaced(Stamps(next, limit, c.second) + rest, base, c) <==> StrictlyPlaced(rest, base, c)
    decreases limit - next
  {
    if next < limit {
      var more := Stamps(next + c.second, limit, c.second);
      StampsStrict(next + c.second, limit, base, rest, c);
      assert [Stamp(next)] + more + rest == [Stamp(next)] + (more + rest);
      assert ([Stamp(next)] + (more + rest))[1..] == more + rest;
    } else {
      assert [] + rest == rest;
    }
  }

  /** A second misses an overflow here exactly when the first one left does, or one of them a later overflow. */
  lemma MissesStep(es: seq<Event>, next: nat, base: int, c: Clocks)
    requires ValidClocks(c) && es != [] && Fits(es[0], c) && Plain(es[0]) && next < CLOCK_MAX
    ensures var n, b := Next(next, es[0], c), BaseAfter(es[0], base, c);
      SomeMisses(es, base, base + next, c) <==>
        (MissesHere(es[0], base, b + n, c) && Reaches(es[1..], b, b + n, c)) || SomeMisses(es[1..], b, b + n, c)
  {
    hide After;
    var e, n, b := es[0], Next(next, es[0], c), BaseAfter(es[0], base, c);
    var first, left := base + next, b + n;
    var m := SecondsLeft(next, Limit(e, c), base, first, c);
    assert left == base + After(next, Limit(e, c), c.second);
    hide Reaches, Next, Limit;
    if SomeMisses(es, base, first, c) {
      var k: nat :| Misses(es, base, Second(first, k, c), c);
      SecondSum(first, m, k - m, c);
      if MissesHere(e, base, Second(first, k, c), c) && Reaches(es[1..], b, Second(first, k, c), c) {
        ReachesEarlier(es[1..], b, left, Second(first, k, c), c);
      } else {
        assert Misses(es[1..], b, Second(left, k - m, c), c);
      }
    }
    if MissesHere(e, base, left, c) && Reaches(es[1..], b, left, c) {
      assert Misses(es, base, Second(first, m, c), c);
    }
    if SomeMisses(es[1..], b, left, c) {
      var k: nat :| Misses(es[1..], b, Second(left, k, c), c);
      SecondSum(first, m, k, c);
      assert Misses(es, base, Second(first, m + k, c), c);
    }
  }

  lemma NoneToMiss(base: int, first: int, c: Clocks)
    ensures !SomeMisses([], base, first, c)
  {}

  /** Every timestamp stands before all later events exactly when no second misses an overflow. */
  lemma {:induction false} StampedStrict(es: seq<Event>, next: nat, base: int, c: Clocks)
    requires ValidClocks(c) && next < CLOCK_MAX
    requires forall i :: 0 <= i < |es| ==> Fits(es[i], c) && Plain(es[i])
    ensures StrictlyPlaced(Stamped(es, next, c), base, c) <==> !SomeMisses(es, base, base + next, c)
    decreases |es|
  {
    hide After, Stamps, Progression, NoneBefore, Reaches, SomeMisses, Stamped;
    StampedOnce(es, next, c);
    if es != [] {
      var e, n, b := es[0], Next(next, es[0], c), BaseAfter(es[0], base, c);
      var rest := Stamped(es[1..], n, c);
      var tail := [e] + rest;
      StampedStrict(es[1..], n, b, c);
      StampedProgress(es[1..], n, b, c);
      FirstDecides(StampTimes(rest, b, c), b + n, c.second, TrueTime(e, base, c));
      StampsFollow(es[1..], n, b, c);
      StampsStrict(next, Limit(e, c), base, tail, c);
      assert tail[1..] == rest;
      assert Stamped(es, next, c) == Before(next, e, c) + tail;
      MissesStep(es, next, base, c);
    } else {
      NoneToMiss(base, base + next, c);
    }
  }

  // ---------------------------------------------------------------- the log

  predicate Known(kind: nat) {
    kind <= RESOURCE && kind != TIMESTAMP && kind != JOYSTICK_DELAY
  }

  /** Kinds recorded without data. */
  predicate Bare(kind: nat) {
    kind == LIST_END || kind == OVERFLOW || kind == KEYBOARD_CLEAR
  }

  /** What is recorded: everything there is but timestamps and the delay of a joystick; and without data. */
  lemma KnownKinds(kind: nat)
    ensures Known(kind) <==> kind in {0, 1, 2, 3, 4, 5, 6, 7, 8, 10, 11, 12, 14, 15, 16}
    ensures Bare(kind) <==> kind in {0, 11, 15}
  {}

  /** A history being recorded, or read back from a snapshot module. */
  class History {
    // The list, always ended by an empty list end.
    var list: seq<Event>
    var nextTimestampClk: nat
    var playbackTime: nat
    const clocks: Clocks

    ghost predicate Valid()
      reads this
    {
      ValidClocks(clocks) && list != [] && list[|list| - 1] == Event(LIST_END, 0, [])
    }

    constructor (clocks: Clocks)
      requires ValidClocks(clocks)
      ensures Valid() && list == [Event(LIST_END, 0, [])] && this.clocks == clocks
    {
      this.clocks := clocks;
      list := [Event(LIST_END, 0, [])];
      nextTimestampClk := CLOCK_MAX;
      playbackTime := 0;
    }

    /** Adds an event at the current clock; kinds that are not known are dropped. */
    method Record(kind: nat, data: seq<Byte>, mainCpuClk: nat)
      requires Valid()
      modifies this`list, this`nextTimestampClk
      ensures Valid()
      ensures list == if Known(kind)
        then old(list)[..|old(list)| - 1] + [Event(kind, mainCpuClk, if Bare(kind) then []
          else data), Event(LIST_END, 0, [])]
        else old(list)
      ensures nextTimestampClk == if kind ==
        RESETCPU then (old(nextTimestampClk) - mainCpuClk) % WORD else old(nextTimestampClk)
    {
      if !Known(kind) {
        return;
      }
      if kind == RESETCPU {
        nextTimestampClk := (nextTimestampClk - mainCpuClk) % WORD;
      }
      var eventData := if Bare(kind) then [] else data;
      list := list[..|list| - 1] + [Event(kind, mainCpuClk, eventData)];
      list := list + [Event(LIST_END, 0, [])];
    }

    /** What the event log does when the clock has been pulled back to mainCpuClk. */
    method ClkOverflow(recording: bool, mainCpuClk: nat)
      requires Valid()
      modifies this`list, this`nextTimestampClk
      ensures Valid()
      ensures recording ==> list == old(list)[..|old(list)| - 1] + [Event(OVERFLOW, mainCpuClk, []),
        Event(LIST_END, 0, [])]
      ensures !recording ==> list == old(list)
      ensures nextTimestampClk == if old(nextTimestampClk) != 0 then (old(nextTimestampClk) - clocks.sub) % WORD else 0
    {
      if recording {
        Record(OVERFLOW, [], mainCpuClk);
      }
      if nextTimestampClk != 0 {
        nextTimestampClk := (nextTimestampClk - clocks.sub) % WORD;
      }
    }

    method WriteModule() returns (b: seq<Byte>)
      ensures b == ModuleBytes(list)
    {
      b := [];
      var i := 0;
      assert list[0..] == list;
      while i < |list|
        invariant 0 <= i <= |list| && b + ModuleBytes(list[i..]) == ModuleBytes(list)
      {
        assert list[i..][1..] == list[i + 1..];
        if list[i].kind != TIMESTAMP {
          assert b + (EventBytes(list[i]) + ModuleBytes(list[i + 1..])) ==
            b + EventBytes(list[i]) + ModuleBytes(list[i + 1..]);
          b := b + EventBytes(list[i]);
        } else {
          assert [] + ModuleBytes(list[i + 1..]) == ModuleBytes(list[i + 1..]);
        }
        i := i + 1;
      }
    }

    /** Puts in the timestamps that are due before an event. */
    method InsertStamps(limit: nat, count: nat) returns (n: nat)
      requires ValidClocks(clocks) && limit + clocks.second < CLOCK_MAX
      modifies this`list, this`nextTimestampClk
      ensures list == old(list) + Stamps(old(nextTimestampClk), limit, clocks.second)
      ensures nextTimestampClk == After(old(nextTimestampClk), limit, clocks.second)
      ensures n == count + |Stamps(old(nextTimestampClk), limit, clocks.second)|
    {
      ghost var all := list + Stamps(nextTimestampClk, limit, clocks.second);
      n := count;
      while nextTimestampClk < limit
        invariant list + Stamps(nextTimestampClk, limit, clocks.second) == all
        invariant After(nextTimestampClk, limit, clocks.second) == After(old(nextTimestampClk), limit, clocks.second)
        invariant n + |Stamps(nextTimestampClk, limit, clocks.second)| ==
          count + |Stamps(old(nextTimestampClk), limit, clocks.second)|
        decreases limit - nextTimestampClk
      {
        assert list + ([Stamp(nextTimestampClk)] + Stamps(nextTimestampClk + clocks.second, limit, clocks.second)) ==
          list + [Stamp(nextTimestampClk)] + Stamps(nextTimestampClk + clocks.second, limit, clocks.second);
        list := list + [Stamp(nextTimestampClk)];
        nextTimestampClk := (nextTimestampClk + clocks.second) % WORD;
        n := n + 1;
      }
    }

    /** Appends an event that was read, after the timestamps due before it. */
    method Append(e: Event, count: nat) returns (n: nat)
      requires ValidClocks(clocks) && Fits(e, clocks) && nextTimestampClk <= CLOCK_MAX
      modifies this`list, this`nextTimestampClk
      ensures list == old(list) + Before(old(nextTimestampClk), e, clocks) + [e]
      ensures nextTimestampClk == Next(old(nextTimestampClk), e, clocks)
      ensures n == count + |Before(old(nextTimestampClk), e, clocks)|
    {
      hide Stamps, After;
      n := count;
      if nextTimestampClk == CLOCK_MAX {
        nextTimestampClk := e.clk;
      }
      if e.kind == INITIAL {
        nextTimestampClk := if e.data[0] == START_MODE_RESET then 0 else e.clk;
      } else {
        n := InsertStamps(Limit(e, clocks), n);
        if e.kind == OVERFLOW {
          nextTimestampClk := (nextTimestampClk - clocks.sub) % WORD;
        }
      }
      list := list + [e];
      if e.kind == RESETCPU {
        nextTimestampClk := (nextTimestampClk - e.clk) % WORD;
      }
    }

    /** Reads a module back, one timestamp for every machine second. */
    method ReadModule(b: seq<Byte>) returns (ok: bool)
      requires ValidClocks(clocks)
      requires forall e <- Parse(b, 0).events :: Fits(e, clocks)
      modifies this
      ensures ok <==> Parse(b, 0).complete
      ensures list == Stamped(Parse(b, 0).events, CLOCK_MAX, clocks)
      ensures playbackTime == if ok && StampCount(list) > 0 then StampCount(list) - 1 else 0
    {
      hide Stamped, StampCount, Before, Next, DwordAt;
      ghost var all, left := Parse(b, 0), Parse(b, 0).events;
      list, playbackTime, nextTimestampClk := [], 0, CLOCK_MAX;
      var p, stamps := 0, 0;
      NothingStamped(clocks);
      while true
        invariant playbackTime == 0 && stamps == StampCount(list)
        invariant 0 <= p <= |b| && nextTimestampClk <= CLOCK_MAX
        invariant Parse(b, p) == Parsed(left, all.complete) && forall e <- left :: Fits(e, clocks)
        invariant list + Stamped(left, nextTimestampClk, clocks) == Stamped(all.events, CLOCK_MAX, clocks)
        decreases |b| - p
      {
        if p + 12 > |b| {
          NothingStamped(clocks);
          return false;
        }
        var kind, clk, size := DwordAt(b, p), DwordAt(b, p + 4), DwordAt(b, p + 8);
        if kind == TIMESTAMP {
          p := p + 12;
          continue;
        }
        if p + 12 + size > |b| {
          NothingStamped(clocks);
          return false;
        }
        var e := Event(kind, clk, b[p + 12..p + 12 + size]);
        assert left[0] == e;
        StampedStep(list, left, nextTimestampClk, clocks);
        CountAppended(list, nextTimestampClk, e, clocks);
        stamps := Append(e, stamps);
        if kind == LIST_END {
          NothingStamped(clocks);
          break;
        }
        left := left[1..];
        p := p + 12 + size;
      }
      if stamps > 0 {
        playbackTime := stamps - 1;
      }
      return true;
    }
  }

  /** The timestamps of a list. */
  function StampCount(es: seq<Event>): nat {
    if es == [] then 0 else StampCount(es[..|es| - 1]) + if es[|es| - 1].kind == TIMESTAMP then 1 else 0
  }

  lemma {:induction false} CountStamps(before: seq<Event>, next: nat, limit: nat, second: nat)
    requires second > 0
    ensures StampCount(before + Stamps(next, limit, second)) == StampCount(before) + |Stamps(next, limit, second)|
    decreases limit - next
  {
    if next < limit {
      var more := Stamps(next + second, limit, second);
      assert before + ([Stamp(next)] + more) == before + [Stamp(next)] + more;
      assert (before + [Stamp(next)])[..|before|] == before;
      CountStamps(before + [Stamp(next)], next + second, limit, second);
    } else {
      assert before + [] == before;
    }
  }

  lemma CountAppended(before: seq<Event>, next: nat, e: Event, c: Clocks)
    requires ValidClocks(c) && e.kind != TIMESTAMP
    ensures StampCount(before + Before(next, e, c) + [e]) == StampCount(before) + |Before(next, e, c)|
  {
    var all := before + Before(next, e, c);
    assert (all + [e])[..|all|] == all;
    if e.kind == INITIAL {
      assert before + [] == before;
    } else {
      CountStamps(before, Start(next, e), Limit(e, c), c.second);
    }
  }

  lemma NothingStamped(c: Clocks)
    requires ValidClocks(c)
    ensures (forall next: nat :: Stamped([], next, c) == []) && StampCount([]) == 0
  {}

  lemma StampedStep(done: seq<Event>, es: seq<Event>, next: nat, c: Clocks)
    requires es != [] && next <= CLOCK_MAX && ValidClocks(c) && forall e <- es :: Fits(e, c)
    ensures done + Stamped(es, next, c) ==
      done + Before(next, es[0], c) + [es[0]] + Stamped(es[1..], Next(next, es[0], c), c)
    ensures es[1..] == [] ==> done + Stamped(es, next, c) == done + Before(next, es[0], c) + [es[0]]
  {
    hide Before, Next;
    var b, rest := Before(next, es[0], c), Stamped(es[1..], Next(next, es[0], c), c);
    assert done + (b + [es[0]] + rest) == done + b + [es[0]] + rest;
  }

  // ---------------------------------------------------------------- whole histories

  lemma {:induction false} StripStripped(es: seq<Event>)
    ensures Strip(UpToEnd(Strip(es))) == UpToEnd(Strip(es))
  {
    if es != [] {
      StripStripped(es[1..]);
      if es[0].kind == TIMESTAMP {
        assert [] + Strip(es[1..]) == Strip(es[1..]);
      } else {
        assert ([es[0]] + Strip(es[1..]))[1..] == Strip(es[1..]);
        var u := UpToEnd(Strip(es[1..]));
        assert ([es[0]] + u)[1..] == u;
        assert [es[0]][1..] == [];
      }
    }
  }

  /** Writing a history, reading it and dropping the timestamps gives the events up to the first list end. */
  lemma HistoryRoundTrip(es: seq<Event>, c: Clocks)
    requires ValidClocks(c) && HasEnd(es)
    requires forall i :: 0 <= i < |es| ==> Storable(es[i])
    requires forall e <- UpToEnd(Strip(es)) :: Fits(e, c)
    ensures var r := Parse(ModuleBytes(es), 0);
      && r.complete && (forall e <- r.events :: Fits(e, c))
      && Strip(Stamped(r.events, CLOCK_MAX, c)) == UpToEnd(Strip(es))
  {
    hide ModuleBytes, Parse, Stamped, Strip, UpToEnd, Fits;
    assert [] + ModuleBytes(es) == ModuleBytes(es);
    ParseModule(es, []);
    StampedStrips(UpToEnd(Strip(es)), CLOCK_MAX, c);
    StripStripped(es);
  }

  /** When the first second of a history begins. */
  function FirstSecond(e: Event): nat
    requires e.kind == INITIAL ==> e.data != []
  {
    if e.kind == INITIAL && e.data[0] == START_MODE_RESET then 0 else e.clk
  }

  /**
   * Across overflows and resets the timestamps read back count whole seconds from
   * the first event on, and stand before all later events exactly when no second
   * misses an overflow.
   */
  lemma HistorySeconds(es: seq<Event>, c: Clocks)
    requires ValidClocks(c) && es != [] && forall i :: 0 <= i < |es| ==> Fits(es[i], c)
    requires Plain(es[0]) || es[0].kind == INITIAL
    requires forall i :: 1 <= i < |es| ==> Plain(es[i])
    ensures var out, first := Stamped(es, CLOCK_MAX, c), FirstSecond(es[0]);
      var (tail, events) := if es[0].kind == INITIAL then (out[1..], es[1..]) else (out, es);
      && Progression(StampTimes(out, 0, c), first, c.second)
      && Placed(tail, 0, c)
      && (StrictlyPlaced(tail, 0, c) <==> !SomeMisses(events, 0, first, c))
  {
    hide Stamped, Progression, Placed, StampTimes, StrictlyPlaced, SomeMisses;
    assert Fits(es[0], c);
    var first := FirstSecond(es[0]);
    FirstStamped(es, c);
    if es[0].kind == INITIAL {
      var rest := Stamped(es[1..], first, c);
      StampedProgress(es[1..], first, 0, c);
      StampedPlaced(es[1..], first, 0, c);
      StampedStrict(es[1..], first, 0, c);
      InitialFirst(es[0], rest, c);
      assert ([es[0]] + rest)[1..] == rest;
    } else {
      StampedProgress(es, first, 0, c);
      StampedPlaced(es, first, 0, c);
      StampedStrict(es, first, 0, c);
    }
  }

  lemma FirstStamped(es: seq<Event>, c: Clocks)
    requires ValidClocks(c) && es != [] && Fits(es[0], c) && forall i :: 0 <= i < |es| ==> Fits(es[i], c)
    ensures FirstSecond(es[0]) < CLOCK_MAX
    ensures Stamped(es, CLOCK_MAX, c) ==
      if es[0].kind == INITIAL then [es[0]] + Stamped(es[1..], FirstSecond(es[0]), c)
        else Stamped(es, FirstSecond(es[0]), c)
  {
    hide Stamps, After, Limit, Stamped;
    var e := es[0];
    StampedOnce(es, CLOCK_MAX, c);
    StampedOnce(es, e.clk, c);
    if e.kind == INITIAL {
      assert [] + [e] + Stamped(es[1..], FirstSecond(e), c) == [e] + Stamped(es[1..], FirstSecond(e), c);
    }
  }

  /** A second that falls 50 ticks after the guard's maximum, a pull-back 100 ticks after it and a key after that. */
  function MissingHistory(second: nat, g: ClkGuard.Guard): seq<Event>
    requires g.Guard? && ClkGuard.ValidGuard(g) && second <= g.max
  {
    [Event(1, g.max + 50 - second, []), Event(OVERFLOW, g.max + 100 - ClkGuard.ClockSub(g), []),
      Event(1, g.max + 200 - ClkGuard.ClockSub(g), [])]
  }

  lemma OneStamp(next: nat, limit: nat, second: nat)
    requires next < limit <= next + second
    ensures Stamps(next, limit, second) == [Stamp(next)] && After(next, limit, second) == next + second
    ensures Stamps(next, next, second) == [] && After(next, next, second) == next
  {}

  lemma StampedLast(e: Event, next: nat, c: Clocks)
    requires ValidClocks(c) && Fits(e, c) && Plain(e) && e.kind != OVERFLOW && e.kind != RESETCPU
    requires next < e.clk <= next + c.second
    ensures Stamped([e], next, c) == [Stamp(next), e]
  {
    hide Stamped, Stamps, After;
    assert [e][1..] == [];
    OneStamp(next, e.clk, c.second);
    StampedOnce([e], next, c);
    StampedOnce([], next + c.second, c);
  }

  lemma MissingStamped(es: seq<Event>, sub: nat, c: Clocks)
    requires ValidClocks(c) && c.sub == sub && ClkGuard.SUB_MIN <= sub
    requires 200 < c.second <= c.guardMax && c.guardMax + c.second + 200 < CLOCK_MAX
    requires es == [Event(1, c.guardMax + 50 - c.second, []), Event(OVERFLOW, c.guardMax + 100 - sub, []),
      Event(1, c.guardMax + 200 - sub, [])]
    ensures Stamped(es, CLOCK_MAX, c) ==
      [es[0], Stamp(c.guardMax + 50 - c.second), es[1], Stamp(c.guardMax + 50 - sub), es[2]]
  {
    hide Stamped, Stamps, After;
    var due := c.guardMax + 50;
    assert es[1..] == [es[1], es[2]] && es[1..][1..] == [es[2]];
    StampedOnce(es, CLOCK_MAX, c);
    StampedOnce(es[1..], due - c.second, c);
    OneStamp(due - c.second, Limit(es[1], c), c.second);
    OneStamp(es[0].clk, es[0].clk + c.second, c.second);
    StampedLast(es[2], due - sub, c);
    assert Stamped(es, CLOCK_MAX, c) == [es[0]] + Stamped(es[1..], due - c.second, c);
    assert Stamped(es[1..], due - c.second, c) == [Stamp(due - c.second), es[1]] + Stamped([es[2]], due - sub, c);
  }

  lemma {:induction false} StrictSuffix(before: seq<Event>, rest: seq<Event>, base: int, c: Clocks)
    requires StrictlyPlaced(before + rest, base, c) && forall e <- before :: e.kind != OVERFLOW && e.kind != RESETCPU
    ensures StrictlyPlaced(rest, base, c)
  {
    if before == [] {
      assert before + rest == rest;
    } else {
      assert (before + rest)[1..] == before[1..] + rest;
      StrictSuffix(before[1..], rest, base, c);
    }
  }

  /**
   * With any guard, that timestamp is put in after the overflow it is due
   * before, because the reader takes an overflow for no later than the guard's
   * maximum.
   */
  lemma OverflowBeforeStamp(second: nat, g: ClkGuard.Guard)
    requires g.Guard? && ClkGuard.ValidGuard(g) && g.base < ClkGuard.SUB_MIN
    requires 200 < second <= g.max && g.max + second + 200 < CLOCK_MAX
    ensures var sub := ClkGuard.ClockSub(g);
      var c, es := Clocks(second, g.max, sub), MissingHistory(second, g);
      var out := [es[0], Stamp(g.max + 50 - second), es[1], Stamp(g.max + 50 - sub), es[2]];
      ValidClocks(c) && (forall e <- es :: Fits(e, c)) && Stamped(es, CLOCK_MAX, c) == out && !StrictlyPlaced(out, 0, c)
  {
    GuardClocks(second, g);
    var _ := ClkGuard.ClockSubFits(g);
    var sub := ClkGuard.ClockSub(g);
    hide ClkGuard.ClockSub, Stamped;
    var c, es := Clocks(second, g.max, sub), MissingHistory(second, g);
    var due := g.max + 50;
    MissingStamped(es, sub, c);
    var late := [es[1], Stamp(due - sub), es[2]];
    assert late[1..] == [Stamp(due - sub), es[2]];
    assert [es[0], Stamp(due - second)] + late == [es[0], Stamp(due - second), es[1], Stamp(due - sub), es[2]];
    assert StampTimes(late[1..], sub, c)[0] == due;
    assert !StrictlyPlaced(late, 0, c) by {
      assert TrueTime(es[1], 0, c) == g.max + 100;
    }
    if StrictlyPlaced([es[0], Stamp(due - second)] + late, 0, c) {
      StrictSuffix([es[0], Stamp(due - second)], late, 0, c);
    }
  }

  lemma InitialFirst(e: Event, rest: seq<Event>, c: Clocks)
    requires e.kind == INITIAL
    ensures StampTimes([e] + rest, 0, c) == StampTimes(rest, 0, c)
  {
    assert ([e] + rest)[1..] == rest;
  }
}
