/**
 * The tape deck: a window over a tape image that is read in both directions,
 * and the writer of pulse lengths.
 */
module Datasette {
  type Byte = b: int | 0 <= b < 256

  const BUFFER_LENGTH: nat := 100000
  const WORD: int := 0x1_0000_0000

  // What a zero byte stands for where it carries no length, and the cycles added to every short gap.
  datatype Tuning = Tuning(version: nat, zeroGapDelay: int, speedTuning: int)

  // ---------------------------------------------------------------- records

  /** A gap and the bytes it takes on the tape. */
  datatype Record = NoRecord | Record(gap: int, length: nat)

  function ShortGap(b: Byte, t: Tuning): int {
    ((if b != 0 then b * 8 else t.zeroGapDelay) + t.speedTuning) % WORD
  }

  function LongGap(b0: Byte, b1: Byte, b2: Byte, t: Tuning): int {
    var gap := b0 + 0x100 * b1 + 0x10000 * b2;
    if gap == 0 then t.zeroGapDelay % WORD else gap
  }

  /** The record at a position of the tape, read from the whole image. */
  function RecordAt(file: seq<Byte>, p: nat, t: Tuning): (r: Record)
    ensures r.Record? ==> (r.length == 1 || r.length == 4) && p + r.length <= |file|
  {
    if p >= |file| then NoRecord
    else if t.version == 0 || file[p] != 0 then Record(ShortGap(file[p], t), 1)
    else if p + 3 >= |file| then NoRecord
    else Record(LongGap(file[p + 1], file[p + 2], file[p + 3], t), 4)
  }

  // ---------------------------------------------------------------- the window

  class Tape {
    const image: seq<Byte>
    const tuning: Tuning
    var position: int
    const buffer: array<Byte>
    var nextTap: int
    var lastTap: nat

    /** The window lies on the image, with its index nextTap where the position is, which may be past its end. */
    ghost predicate Window()
      reads this, buffer
    {
      && buffer.Length == BUFFER_LENGTH && lastTap <= BUFFER_LENGTH && 0 <= position <= |image|
      && 0 <= nextTap <= position && position - nextTap + lastTap <= |image| && Shows(position - nextTap)
    }

    /** The window is the part of the image that starts there. */
    ghost predicate Shows(start: nat)
      requires lastTap <= buffer.Length && start + lastTap <= |image|
      reads this`lastTap, buffer
    {
      forall i :: 0 <= i < lastTap ==> buffer[i] == image[start + i]
    }

    ghost predicate Valid()
      reads this, buffer
    {
      Window() && nextTap <= lastTap
    }

    /** The position lies between two records, counted from the start of the tape. */
    ghost predicate OnRecord()
      reads this
    {
      0 <= position <= |image| && Reached(image, 0, position, tuning)
    }

    /** How many bytes the window holds from the position on, once it reaches back. */
    function AheadAfterBack(offset: nat): int
      reads this
    {
      if nextTap >= offset then lastTap - nextTap
      else Min(|image| - position, 100000 - Min(position, 100000))
    }

    constructor (image: seq<Byte>, tuning: Tuning)
      ensures Valid() && this.image == image && this.tuning == tuning && position == 0 && fresh(buffer)
      ensures nextTap == lastTap == 0
    {
      this.image := image;
      this.tuning := tuning;
      position := 0;
      buffer := new Byte[BUFFER_LENGTH](_ => 0);
      nextTap, lastTap := 0, 0;
    }

    /** What a command of the deck does to the window. */
    method ClearBuffer()
      requires Valid()
      modifies this`nextTap, this`lastTap
      ensures Valid()
    {
      nextTap, lastTap := 0, 0;
    }

    /** Fills the buffer from a place of the image on. */
    method Fread(start: nat)
      requires buffer.Length == BUFFER_LENGTH && start <= |image|
      modifies this`lastTap, buffer
      ensures lastTap == if |image| - start < BUFFER_LENGTH then |image| - start else BUFFER_LENGTH
      ensures forall i :: 0 <= i < lastTap ==> buffer[i] == image[start + i]
    {
      lastTap := if |image| - start < BUFFER_LENGTH then |image| - start else BUFFER_LENGTH;
      forall i | 0 <= i < lastTap {
        buffer[i] := image[start + i];
      }
    }

    /** Position and index move together, and the window stays where it lies on the image. */
    method Move(n: int)
      modifies this`position, this`nextTap
      ensures position == old(position) + n && nextTap == old(nextTap) + n
      ensures old(Window()) && 0 <= nextTap && position <= |image| ==> Window()
    {
      position, nextTap := position + n, nextTap + n;
    }

    /** Makes the window reach `offset` bytes ahead, or to the end of the tape. */
    method MoveBufferForward(offset: nat) returns (ok: bool)
      requires Window()
      modifies this`nextTap, this`lastTap, buffer
      ensures Valid()
      ensures ok <==> old(nextTap) + offset < old(lastTap) || position < |image|
      ensures ok ==> nextTap < lastTap
      ensures ok ==>
        (nextTap + offset < lastTap || position - nextTap + lastTap == |image| || BUFFER_LENGTH <= offset)
    {
      if nextTap + offset >= lastTap {
        Fread(position);
        nextTap := 0;
        if nextTap >= lastTap {
          return false;
        }
      }
      return true;
    }

    /** Makes the window reach `offset` bytes back, or to the start of the tape. */
    method MoveBufferBack(offset: nat) returns (ok: bool)
      requires Valid()
      modifies this`nextTap, this`lastTap, buffer
      ensures Valid() && ok
      ensures nextTap == if old(nextTap) >= offset then old(nextTap) else Min(position, BUFFER_LENGTH)
      ensures lastTap - nextTap == old(AheadAfterBack(offset))
    {
      if nextTap - offset < 0 {
        nextTap := if position >= BUFFER_LENGTH then BUFFER_LENGTH else position;
        Fread(position - nextTap);
        if nextTap > lastTap {
          return false;
        }
      }
      return true;
    }

    /** Decodes the record in the window at readTap; negative where there is none. */
    method FetchGap(readTap: int) returns (r: Record)
      requires Valid()
      ensures readTap >= lastTap || readTap < 0 ==> r == NoRecord
      ensures 0 <= readTap < lastTap ==> r == RecordAt(buffer[..lastTap], readTap, tuning)
    {
      if readTap >= lastTap || readTap < 0 {
        return NoRecord;
      }
      var b := buffer[readTap];
      if tuning.version == 0 || b != 0 {
        return Record(ShortGap(b, tuning), 1);
      } else {
        if readTap >= lastTap - 3 {
          return NoRecord;
        }
        return Record(LongGap(buffer[readTap + 1], buffer[readTap + 2], buffer[readTap + 3], tuning), 4);
      }
    }

    /** In a window that reaches ahead the record at an index is that of the image. */
    lemma ShownRecord(i: nat)
      requires Window() && i < lastTap && (i + 4 < lastTap || position - nextTap + lastTap == |image|)
      ensures RecordAt(buffer[..lastTap], i, tuning) == RecordAt(image, position - nextTap + i, tuning)
    {
      WindowRecord(image, position - nextTap + i, buffer[..lastTap], i, tuning);
    }

    /** Reading forward gives the record at the position, whatever window it goes through. */
    method ReadForward() returns (gap: int)
      requires Valid()
      modifies this, buffer
      ensures Valid()
      ensures match RecordAt(image, old(position), tuning)
        case NoRecord => gap == 0 && position == old(position)
        case Record(g, length) => gap == g && position == old(position) + length
      ensures old(OnRecord()) ==> OnRecord()
    {
      hide RecordAt, Reached, Shows;
      if OnRecord() && RecordAt(image, position, tuning).Record? {
        ReachedOn(image, 0, position, tuning);
      }
      var ok := MoveBufferForward(4);
      if !ok {
        return 0;
      }
      var r := FetchGap(nextTap);
      ShownRecord(nextTap);
      if r.NoRecord? {
        return 0;
      }
      Move(r.length);
      return r.gap;
    }

    /** Rewinds until three bytes in a row are not zero, or to the start of the tape. */
    method RewindInARow()
      requires Valid()
      modifies this`position, this`nextTap, this`lastTap, buffer
      ensures Valid() && position == BackSearch(image, old(position), 0) <= old(position)
    {
      var nonZerosInARow := 0;
      while nonZerosInARow < 3 && position != 0
        invariant Valid() && position <= old(position)
        invariant BackSearch(image, position, nonZerosInARow) == BackSearch(image, old(position), 0)
        decreases position
      {
        var _ := MoveBufferBack(1);
        Move(-1);
        nonZerosInARow := if buffer[nextTap] != 0 then nonZerosInARow + 1 else 0;
      }
    }

    /** Goes on gap by gap until a position is reached or passed; the window then reaches four bytes ahead. */
    method ForwardByGaps(limit: nat)
      requires Valid() && position <= limit && limit + 4 <= |image|
      modifies this`position, this`nextTap, this`lastTap, buffer
      ensures Valid() && nextTap < lastTap
      ensures limit <= position < limit + 4 && position == ForwardSearch(image, old(position), limit)
      ensures nextTap + 4 < lastTap || position - nextTap + lastTap == |image|
    {
      while position < limit
        invariant Window() && position < limit + 4
        invariant ForwardSearch(image, position, limit) == ForwardSearch(image, old(position), limit)
        decreases limit - position
      {
        var _ := MoveBufferForward(1);
        Move(if buffer[nextTap] != 0 then 1 else 4);
      }
      var _ := MoveBufferForward(4);
    }

    /**
     * Finds the gap before the position where the byte four back is zero: back
     * to three bytes that are not zero, and forward from there gap by gap.
     */
    method ReadGapBackwardV1() returns (readTap: nat)
      requires Valid() && 4 <= nextTap
      modifies this`position, this`nextTap, this`lastTap, buffer
      ensures Valid() && position == old(position)
      ensures readTap < lastTap && readTap < nextTap && position - nextTap + readTap == Landing(image, position)
      ensures RecordAt(buffer[..lastTap], readTap, tuning) == RecordAt(image, Landing(image, position), tuning)
    {
      hide RecordAt, BackSearch, ForwardSearch;
      var rememberPosition := position;
      Move(-4);
      RewindInARow();
      ForwardByGaps(rememberPosition - 4);
      assert position == Landing(image, rememberPosition);
      hide Landing;
      readTap := nextTap;
      ShownRecord(readTap);
      hide Shows;
      Move(rememberPosition - position);
    }

    /** Makes the window reach back and finds the gap before the position in it. */
    method FindGapBefore() returns (readTap: int)
      requires Valid()
      modifies this`position, this`nextTap, this`lastTap, buffer
      ensures Valid() && position == old(position)
      ensures var b := Before(image, position, old(AheadAfterBack(4)), tuning);
        && b == (if 0 <= readTap < lastTap then RecordAt(buffer[..lastTap], readTap, tuning) else NoRecord)
        && (old(OnRecord()) && 0 < position ==> b.Record? && b.length <= nextTap)
    {
      hide RecordAt, Reached, Landing, Misread;
      if 0 < position && OnRecord() {
        BeforeIsPrevious(image, position, AheadAfterBack(4), tuning);
      }
      var _ := MoveBufferBack(4);
      readTap := nextTap - 1;
      if tuning.version != 0 && nextTap >= 4 && buffer[nextTap - 4] == 0 {
        readTap := ReadGapBackwardV1();
      } else if 0 <= readTap {
        WindowBefore(image, position, buffer[..lastTap], nextTap, tuning);
      }
    }

    /**
     * Reading backward at any position, and off the start of the tape exactly
     * where said; between records it goes to the start of the record before and
     * gives its gap, unless that is misread.
     */
    method ReadBackward() returns (gap: int)
      requires Valid()
      modifies this, buffer
      ensures match Before(image, old(position), old(AheadAfterBack(4)), tuning)
        case NoRecord => gap == 0 && position == old(position)
        case Record(g, length) => gap == g && position == old(position) - length
      ensures position < 0 <==>
        tuning.version != 0 && 0 < old(position) < 4 && old(position) + 2 < |image| && image[old(position) - 1] == 0
      ensures old(OnRecord()) ==> Valid() && OnRecord()
      ensures old(OnRecord()) && old(position) == 0 ==> gap == 0 && position == 0
      ensures old(OnRecord()) && old(position) > 0 ==>
        && RecordAt(image, position, tuning).Record?
        && position + RecordAt(image, position, tuning).length == old(position)
        && (gap == RecordAt(image, position, tuning).gap <==> !Misread(image, old(position), tuning))
    {
      hide RecordAt, Reached, Landing, Before, Misread, Shows;
      BackwardLeavesTape(image, position, AheadAfterBack(4), tuning);
      if 0 < position && OnRecord() {
        BeforeIsPrevious(image, position, AheadAfterBack(4), tuning);
      }
      var readTap := FindGapBefore();
      var r := FetchGap(readTap);
      if r.NoRecord? {
        return 0;
      }
      Move(0 - r.length);
      return r.gap;
    }
  }

  /** Reads a record and goes back over it. */
  method ReadAndReturn(tape: Tape) returns (there: int, back: int)
    requires tape.Valid() && RecordAt(tape.image, tape.position, tape.tuning).Record?
    modifies tape, tape.buffer
    ensures old(tape.OnRecord()) ==>
      && tape.Valid() && tape.OnRecord() && tape.position == old(tape.position)
      && var next := tape.position + RecordAt(tape.image, tape.position, tape.tuning).length;
        back == there <==> !Misread(tape.image, next, tape.tuning)
    ensures old(RecordAt(tape.image, tape.position, tape.tuning).length) == 1 ==>
      (tape.tuning.version == 0 || old(tape.position) < 3 || tape.image[old(tape.position) - 3] != 0) ==>
      tape.position == old(tape.position) && back == there
  {
    ghost var start, length := tape.position, RecordAt(tape.image, tape.position, tape.tuning).length;
    there := tape.ReadForward();
    if Reached(tape.image, 0, start, tape.tuning) {
      ReachedOn(tape.image, 0, start, tape.tuning);
    }
    back := tape.ReadBackward();
    if Reached(tape.image, 0, start, tape.tuning) {
      SameEnd(tape.image, start, tape.position, start + length, tape.tuning);
    }
  }

  function Min(a: int, b: int): int {
    if a < b then a else b
  }

  // ---------------------------------------------------------------- going back

  /** Back from a position until three bytes that are not zero stand in a row there, or to the start. */
  function BackSearch(file: seq<Byte>, p: nat, row: nat): nat
    requires p <= |file|
  {
    if row >= 3 || p == 0 then p else BackSearch(file, p - 1, if file[p - 1] != 0 then row + 1 else 0)
  }

  /** Forward by gaps of version 1 until a position is reached or passed. */
  function ForwardSearch(file: seq<Byte>, p: nat, limit: nat): nat
    requires limit <= |file|
    decreases limit - p
  {
    if p >= limit then p else ForwardSearch(file, if file[p] != 0 then p + 1 else p + 4, limit)
  }

  /** Where the search for a gap four bytes back ends up. */
  function Landing(file: seq<Byte>, p: nat): nat
    requires 4 <= p <= |file|
  {
    ForwardSearch(file, BackSearch(file, p - 4, 0), p - 4)
  }

  /** What is taken for the record before a position when the window holds so many bytes after it. */
  function Before(file: seq<Byte>, p: nat, ahead: int, t: Tuning): Record
    requires p <= |file|
  {
    if p == 0 then NoRecord
    else if t.version != 0 && p >= 4 && file[p - 4] == 0 then RecordAt(file, Landing(file, p), t)
    else if t.version != 0 && file[p - 1] == 0 && ahead < 3 then NoRecord
    else RecordAt(file, p - 1, t)
  }

  /** Whole records lead from one position to another. */
  ghost predicate Reached(file: seq<Byte>, start: nat, end: nat, t: Tuning)
    decreases end - start
  {
    || start == end
    || (start < end && var r := RecordAt(file, start, t); r.Record? && Reached(file, start + r.length, end, t))
  }

  /** A long record starts here. */
  ghost predicate LongAt(file: seq<Byte>, p: int, t: Tuning) {
    0 <= p < |file| && t.version != 0 && file[p] == 0 && Reached(file, 0, p, t)
  }

  /**
   * The gap before p is misread when two or three short records stand between p
   * and a long record whose byte four before p is zero, and the first of them
   * is not the same as the last.
   */
  ghost predicate Misread(file: seq<Byte>, p: nat, t: Tuning) {
    && 4 <= p <= |file| && file[p - 4] == 0
    && (
      || (LongAt(file, p - 6, t) && file[p - 2] != file[p - 1])
      || (LongAt(file, p - 7, t) && file[p - 3] != file[p - 1]))
  }

  lemma {:induction false} ReachedOn(file: seq<Byte>, start: nat, end: nat, t: Tuning)
    requires Reached(file, start, end, t) && RecordAt(file, end, t).Record?
    ensures Reached(file, start, end + RecordAt(file, end, t).length, t)
    decreases end - start
  {
    if start < end {
      ReachedOn(file, start + RecordAt(file, start, t).length, end, t);
    }
  }

  lemma {:induction false} ReachedThrough(file: seq<Byte>, a: nat, b: nat, c: nat, t: Tuning)
    requires Reached(file, a, b, t) && Reached(file, b, c, t)
    ensures a <= b <= c && Reached(file, a, c, t)
    decreases b - a
  {
    if a < b {
      ReachedThrough(file, a + RecordAt(file, a, t).length, b, c, t);
    }
  }

  /** Of two places reached the nearer one leads to the farther. */
  lemma {:induction false} ReachedBetween(file: seq<Byte>, a: nat, b: nat, c: nat, t: Tuning)
    requires Reached(file, a, b, t) && Reached(file, a, c, t) && b <= c
    ensures Reached(file, b, c, t)
    decreases b - a
  {
    if a < b {
      ReachedBetween(file, a + RecordAt(file, a, t).length, b, c, t);
    }
  }

  /** The record that ends where records lead. */
  lemma {:induction false} LastRecord(file: seq<Byte>, start: nat, end: nat, t: Tuning) returns (p: nat)
    requires Reached(file, start, end, t) && start < end
    ensures Reached(file, start, p, t) && RecordAt(file, p, t).Record? && p + RecordAt(file, p, t).length == end
    decreases end - start
  {
    var next := start + RecordAt(file, start, t).length;
    if next == end {
      p := start;
    } else {
      p := LastRecord(file, next, end, t);
    }
  }

  /** Records that end together are the same. */
  lemma SameEnd(file: seq<Byte>, p: nat, q: nat, end: nat, t: Tuning)
    requires Reached(file, 0, p, t) && RecordAt(file, p, t).Record? && p + RecordAt(file, p, t).length == end
    requires Reached(file, 0, q, t) && RecordAt(file, q, t).Record? && q + RecordAt(file, q, t).length == end
    ensures p == q
  {
    ReachedBetween(file, 0, if p <= q then p else q, if p <= q then q else p, t);
  }

  /** Three bytes in a row that are not zero end at the start of a record. */
  lemma {:induction false} ThreeInARow(file: seq<Byte>, start: nat, q: nat, end: nat, t: Tuning)
    requires Reached(file, start, end, t) && start <= q + 3 <= end <= |file|
    requires file[q] != 0 && file[q + 1] != 0 && file[q + 2] != 0
    ensures Reached(file, start, q + 3, t) && Reached(file, q + 3, end, t)
    decreases end - start
  {
    if start < q + 3 {
      ThreeInARow(file, start + RecordAt(file, start, t).length, q, end, t);
    }
  }

  lemma {:induction false} BackSearchStops(file: seq<Byte>, p: nat, row: nat)
    requires row <= 3 && p + row <= |file| && forall i :: p <= i < p + row ==> file[i] != 0
    ensures var q := BackSearch(file, p, row);
      q <= p && (q == 0 || (q + 3 <= p + row && file[q] != 0 && file[q + 1] != 0 && file[q + 2] != 0))
    decreases p
  {
    if row < 3 && p != 0 {
      BackSearchStops(file, p - 1, if file[p - 1] != 0 then row + 1 else 0);
    }
  }

  /** From the start of a record the forward search stays on records; past its limit a long one has taken it. */
  lemma {:induction false} ForwardReaches(file: seq<Byte>, a: nat, limit: nat, p: nat, t: Tuning) returns (m: nat)
    requires t.version != 0 && Reached(file, a, p, t) && a <= limit && limit + 4 <= p <= |file|
    ensures var r := ForwardSearch(file, a, limit);
      && limit <= r < p && Reached(file, a, r, t) && Reached(file, r, p, t)
      && (r > limit ==> m + 4 == r && file[m] == 0 && Reached(file, a, m, t))
    decreases limit - a
  {
    m := a;
    if a < limit {
      var next := a + RecordAt(file, a, t).length;
      if next <= limit {
        m := ForwardReaches(file, next, limit, p, t);
      }
    }
  }

  /** Back from the end of a record the search lands at the start of one, the first that is not too far back. */
  lemma LandingReached(file: seq<Byte>, p: nat, t: Tuning) returns (m: nat)
    requires t.version != 0 && 4 <= p <= |file| && Reached(file, 0, p, t)
    ensures var r := Landing(file, p);
      && p - 4 <= r < p && Reached(file, 0, r, t) && Reached(file, r, p, t)
      && (r > p - 4 ==> m + 4 == r && LongAt(file, m, t))
  {
    hide RecordAt, BackSearch;
    var q := BackSearch(file, p - 4, 0);
    BackSearchStops(file, p - 4, 0);
    if q == 0 {
      m := ForwardReaches(file, 0, p - 4, p, t);
    } else {
      ThreeInARow(file, 0, q, p, t);
      m := ForwardReaches(file, q + 3, p - 4, p, t);
      assert ForwardSearch(file, q + 1, p - 4) == ForwardSearch(file, q + 2, p - 4);
      assert ForwardSearch(file, q + 2, p - 4) == ForwardSearch(file, q + 3, p - 4);
      ReachedThrough(file, 0, q + 3, Landing(file, p), t);
      if Landing(file, p) > p - 4 {
        ReachedThrough(file, 0, q + 3, m, t);
      }
    }
  }

  /** No other record starts inside a long one. */
  lemma LongExcludes(file: seq<Byte>, m: nat, p: nat, t: Tuning)
    requires LongAt(file, m, t) && Reached(file, 0, p, t) && m < p
    ensures m + 4 <= p
  {
    ReachedBetween(file, 0, m, p, t);
  }

  lemma SameShortGap(a: Byte, b: Byte, t: Tuning)
    requires a != 0 && b != 0
    ensures ShortGap(a, t) == ShortGap(b, t) <==> a == b
  {}

  lemma OneLong(file: seq<Byte>, m: nat, n: nat, t: Tuning)
    requires LongAt(file, m, t) && LongAt(file, n, t) && m < n + 4 && n < m + 4
    ensures m == n
  {
    if m < n {
      LongExcludes(file, m, n, t);
    } else if n < m {
      LongExcludes(file, n, m, t);
    }
  }

  /** A long record before the position is found where it starts. */
  lemma LongBefore(file: seq<Byte>, p: nat, t: Tuning)
    requires t.version != 0 && 4 <= p <= |file| && file[p - 4] == 0
    requires Reached(file, 0, p - 4, t) && Reached(file, 0, p, t)
    ensures Landing(file, p) == p - 4 && !Misread(file, p, t)
  {
    hide Landing;
    var m := LandingReached(file, p, t);
    var r := Landing(file, p);
    if r > p - 4 {
      LongExcludes(file, p - 4, r, t);
    }
    if p >= 6 && LongAt(file, p - 6, t) {
      LongExcludes(file, p - 6, p - 4, t);
    }
    if p >= 7 && LongAt(file, p - 7, t) {
      LongExcludes(file, p - 7, p - 4, t);
    }
  }

  /** Before a short record it is the first record after the long one that reaches over the byte four back. */
  lemma ShortBefore(file: seq<Byte>, p: nat, t: Tuning)
    requires t.version != 0 && 4 <= p <= |file| && file[p - 4] == 0
    requires Reached(file, 0, p - 1, t) && Reached(file, 0, p, t)
    ensures var r := Landing(file, p);
      p - 4 < r < p && file[r] != 0 && file[p - 1] != 0 && (Misread(file, p, t) <==> file[r] != file[p - 1])
  {
    hide Landing;
    var m := LandingReached(file, p, t);
    var r := Landing(file, p);
    ReachedBetween(file, 0, p - 1, p, t);
    if r == p - 4 {
      LongExcludes(file, r, p - 1, t);
    }
    if p >= 6 && LongAt(file, p - 6, t) {
      OneLong(file, m, p - 6, t);
    }
    if p >= 7 && LongAt(file, p - 7, t) {
      OneLong(file, m, p - 7, t);
    }
  }

  /** Between records, what the reader takes for the record before has its length, and its gap unless misread. */
  lemma BeforeIsPrevious(file: seq<Byte>, p: nat, ahead: int, t: Tuning)
    requires 0 < p <= |file| && Reached(file, 0, p, t)
    ensures var b := Before(file, p, ahead, t);
      && b.Record? && b.length <= p && Reached(file, 0, p - b.length, t)
      && var r := RecordAt(file, p - b.length, t);
        r.Record? && r.length == b.length && (b.gap == r.gap <==> !Misread(file, p, t))
    ensures Before(file, p, ahead, t).length == 4 ==>
      t.version != 0 && p >= 4 && file[p - 4] == 0 && Landing(file, p) == p - 4
  {
    hide Landing, Reached;
    var q := LastRecord(file, 0, p, t);
    if t.version == 0 || p < 4 || file[p - 4] != 0 {
      assert q == p - 1;
    } else if q == p - 4 {
      LongBefore(file, p, t);
    } else {
      ShortBefore(file, p, t);
      SameShortGap(file[Landing(file, p)], file[p - 1], t);
    }
  }

  /** The byte before the position in a window that reaches back decodes as far as the window reaches ahead. */
  lemma WindowBefore(image: seq<Byte>, p: nat, window: seq<Byte>, i: nat, t: Tuning)
    requires 0 < i <= |window| && i <= p && p - i + |window| <= |image|
    requires window == image[p - i..p - i + |window|]
    requires t.version == 0 || p < 4 || image[p - 4] != 0
    ensures RecordAt(window, i - 1, t) == Before(image, p, |window| - i, t)
  {}

  /**
   * Going back leaves the tape at its start exactly for a zero byte of a
   * version 1 image within the first three bytes and with three more bytes
   * after it.
   */
  lemma BackwardLeavesTape(file: seq<Byte>, p: nat, ahead: int, t: Tuning)
    requires p <= |file| && (p < 4 ==> ahead == Min(|file| - p, BUFFER_LENGTH - p))
    ensures Before(file, p, ahead, t).Record? && Before(file, p, ahead, t).length > p <==>
      t.version != 0 && 0 < p < 4 && p + 2 < |file| && file[p - 1] == 0
  {
    hide Landing;
  }

  /** A window that reaches four bytes ahead or to the end of the image decodes like the image. */
  lemma WindowRecord(image: seq<Byte>, p: nat, window: seq<Byte>, i: nat, t: Tuning)
    requires i < |window| && i <= p && p - i + |window| <= |image|
    requires window == image[p - i..p - i + |window|]
    requires i + 4 < |window| || p - i + |window| == |image|
    ensures RecordAt(window, i, t) == RecordAt(image, p, t)
  {}

  // ---------------------------------------------------------------- writing

  /** The bytes written for the time since the last pulse; shorter times than 7 cycles are dropped. */
  function Written(time: nat, version: nat): seq<Byte> {
    if time < 7 then []
    else if time < 255 * 8 + 7 then [time / 8]
    else if version >= 1 then [0, time % 0x100, time / 0x100 % 0x100, time / 0x10000 % 0x100]
    else [0]
  }

  /** The recorder: bytes go to the image from the position on. */
  class Recorder {
    var image: seq<Byte>
    var position: nat
    var lastWriteClk: nat
    const version: nat

    constructor (version: nat, clk: nat)
      requires clk < WORD
      ensures this.version == version && image == [] && position == 0 && lastWriteClk == clk
    {
      this.version := version;
      image, position, lastWriteClk := [], 0, clk;
    }

    method Fwrite(bytes: seq<Byte>)
      requires position <= |image|
      modifies this`image, this`position
      ensures position == old(position) + |bytes|
      ensures image == old(image[..position]) + bytes + if position <= old(|image|) then old(image)[position..] else []
    {
      image := image[..position] + bytes + if position + |bytes| <= |image| then image[position + |bytes|..] else [];
      position := position + |bytes|;
    }

    method BitWrite(mainCpuClk: nat)
      requires position <= |image| && mainCpuClk < WORD && lastWriteClk < WORD
      modifies this`image, this`position, this`lastWriteClk
      ensures lastWriteClk == mainCpuClk && position <= |image|
      ensures var bytes := Written((mainCpuClk - old(lastWriteClk)) % WORD, version);
        position == old(position) + |bytes| && image[..position] == old(image[..position]) + bytes
      ensures position <= old(|image|) ==> |image| == old(|image|) && image[position..] == old(image)[position..]
    {
      var writeTime: nat := (mainCpuClk - lastWriteClk) % WORD;
      lastWriteClk := mainCpuClk;
      if writeTime < 7 {
        return;
      }
      if writeTime < 255 * 8 + 7 {
        Fwrite([writeTime / 8]);
      } else {
        Fwrite([0]);
        if version >= 1 {
          var b0, b1, b2 := writeTime % 0x100, writeTime / 0x100 % 0x100, writeTime / 0x10000 % 0x100;
          Fwrite([b0, b1, b2]);
        }
      }
    }
  }

  /**
   * Seven cycles recorded within the first three bytes of a longer tape leave
   * the position behind a lone zero byte; rewinding from there ends before the
   * start of the tape.
   */
  method RewindAfterSeven(recorder: Recorder, mainCpuClk: nat, tuning: Tuning) returns (tape: Tape)
    requires recorder.version == tuning.version >= 1 && recorder.position <= 2
    requires recorder.position + 4 <= |recorder.image|
    requires mainCpuClk < WORD && recorder.lastWriteClk < WORD && (mainCpuClk - recorder.lastWriteClk) % WORD == 7
    modifies recorder
    ensures fresh(tape) && tape.image == recorder.image && |recorder.image| == old(|recorder.image|)
    ensures tape.position == old(recorder.position) - 3 < 0
  {
    recorder.BitWrite(mainCpuClk);
    var p := recorder.position;
    assert recorder.image[..p][p - 1] == 0;
    tape := new Tape(recorder.image, tuning);
    tape.position := p;
    var gap := tape.ReadBackward();
  }

  /** What a written time reads back as. */
  function ReadsBackAs(time: nat, t: Tuning): int {
    if time < 255 * 8 + 7 then (time / 8 * 8 + t.speedTuning) % WORD
    else if t.version == 0 then (t.zeroGapDelay + t.speedTuning) % WORD
    else if time % 0x100_0000 == 0 then t.zeroGapDelay % WORD
    else time % 0x100_0000
  }

  /**
   * A written gap reads back as that time rounded down to a multiple of 8 plus
   * the tuning when it is short, and to its 24 bits when it is long and the
   * image has room for them.
   */
  lemma GapRoundTrip(before: seq<Byte>, time: nat, after: seq<Byte>, t: Tuning)
    requires 8 <= time
    ensures RecordAt(before + Written(time, t.version) + after, |before|, t) ==
      Record(ReadsBackAs(time, t), |Written(time, t.version)|)
  {
    var w := Written(time, t.version);
    var file := before + w + after;
    assert forall i :: 0 <= i < |w| ==> file[|before| + i] == w[i];
    assert file[|before|] == w[0];
    if time >= 255 * 8 + 7 && t.version >= 1 {
      assert file[|before| + 1] == w[1] && file[|before| + 2] == w[2] && file[|before| + 3] == w[3];
      Bytes24(time);
    }
  }

  /** Nothing below seven cycles, then one byte, and from 2047 cycles on the marker with three more in version 1. */
  lemma WrittenLength(time: nat, version: nat)
    ensures |Written(time, version)| == if time < 7 then 0 else if time < 2047 || version == 0 then 1 else 4
    ensures 7 <= time < 2047 ==> 8 * Written(time, version)[0] as int <= time < 8 * Written(time, version)[0] as int + 8
    ensures 2047 <= time ==> Written(time, version)[0] == 0
  {}

  lemma Bytes24(time: nat)
    ensures time % 0x100 + 0x100 * (time / 0x100 % 0x100) + 0x10000 * (time / 0x10000 % 0x100) == time % 0x100_0000
  {
    var a := time / 0x100;
    var c := a / 0x100;
    assert time / 0x10000 == c && time / 0x100_0000 == c / 0x100;
  }

  /**
   * Seven cycles are the only time written as a lone zero byte in version 1,
   * and reading takes that for the marker of a long gap: the three bytes that
   * follow become its length, and where fewer follow the tape ends.
   */
  lemma SevenIsAMarker(time: nat, before: seq<Byte>, after: seq<Byte>, t: Tuning)
    requires t.version >= 1
    ensures |Written(time, t.version)| == 1 && Written(time, t.version)[0] == 0 <==> time == 7
    ensures time == 7 ==>
      RecordAt(before + Written(time, t.version) + after, |before|, t) ==
        if |after| < 3 then NoRecord else Record(LongGap(after[0], after[1], after[2], t), 4)
  {
    if time == 7 {
      var file := before + [0] + after;
      assert forall i :: 0 <= i < |after| ==> file[|before| + 1 + i] == after[i];
    }
  }

  /**
   * Going back over three short gaps behind a long one of less than 65536
   * cycles: the last gap is misread as the first unless they are written alike.
   */
  lemma LongThenShort(long: nat, a: nat, b: nat, c: nat, t: Tuning)
    requires t.version >= 1 && 255 * 8 + 7 <= long < 0x10000
    requires 8 <= a < 255 * 8 + 7 && 8 <= b < 255 * 8 + 7 && 8 <= c < 255 * 8 + 7
    ensures var tape := WrittenAll([long, a, b, c], t.version);
      |tape| == 7 && Reached(tape, 0, 7, t) && (Misread(tape, 7, t) <==> a / 8 != c / 8)
  {
    var times := [long, a, b, c];
    assert times[..3] == [long, a, b] && [long, a, b][..2] == [long, a];
    assert [long, a][..1] == [long] && [long][..0] == [];
    var tape := WrittenAll(times, t.version);
    assert WrittenAll([], t.version) == [];
    assert WrittenAll([long], t.version) == Written(long, t.version) == [0, long % 0x100, long / 0x100, 0];
    assert WrittenAll([long, a], t.version) == [0, long % 0x100, long / 0x100, 0, a / 8];
    assert WrittenAll([long, a, b], t.version) == [0, long % 0x100, long / 0x100, 0, a / 8, b / 8];
    assert tape == [0, long % 0x100, long / 0x100, 0, a / 8, b / 8, c / 8];
    hide WrittenAll, Written;
    assert RecordAt(tape, 0, t).length == 4;
    assert Reached(tape, 6, 7, t) && Reached(tape, 5, 7, t) && Reached(tape, 4, 7, t);
  }

  function WrittenAll(times: seq<nat>, version: nat): seq<Byte> {
    if times == [] then [] else WrittenAll(times[..|times| - 1], version) + Written(times[|times| - 1], version)
  }

  /** The records that follow each other from p to the end of the tape. */
  function ReadAll(file: seq<Byte>, p: nat, t: Tuning): seq<int>
    decreases |file| - p
  {
    match RecordAt(file, p, t)
    case NoRecord => []
    case Record(g, length) => [g] + ReadAll(file, p + length, t)
  }

  lemma {:induction false} WrittenSplit(times: seq<nat>, version: nat)
    requires times != []
    ensures WrittenAll(times, version) == Written(times[0], version) + WrittenAll(times[1..], version)
  {
    var n := |times| - 1;
    if n > 0 {
      WrittenSplit(times[..n], version);
      assert times[..n][1..] == times[1..][..n - 1];
    } else {
      assert times[..0] == [] && times[1..] == [];
    }
  }

  function ReadsBackAll(times: seq<nat>, t: Tuning): seq<int> {
    if times == [] then [] else [ReadsBackAs(times[0], t)] + ReadsBackAll(times[1..], t)
  }

  /** A whole recording of gaps of at least 8 cycles reads back gap by gap. */
  lemma {:induction false} TapeRoundTrip(before: seq<Byte>, times: seq<nat>, t: Tuning)
    requires forall i :: 0 <= i < |times| ==> 8 <= times[i]
    ensures ReadAll(before + WrittenAll(times, t.version), |before|, t) == ReadsBackAll(times, t)
    decreases |times|
  {
    hide Written, ReadsBackAs;
    if times != [] {
      var w, rest := Written(times[0], t.version), WrittenAll(times[1..], t.version);
      WrittenSplit(times, t.version);
      hide WrittenAll, RecordAt;
      GapRoundTrip(before, times[0], rest, t);
      TapeRoundTrip(before + w, times[1..], t);
      assert before + WrittenAll(times, t.version) == before + w + rest;
    }
  }
}
