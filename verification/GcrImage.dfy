/**
 * The track a drive is given for a disk image: filler, and one formatted
 * record per sector at equal distances.  Every sector reads back from it.
 */
module GcrImage {
  import opened GcrCode
  import opened GcrTrack
  import opened GcrFormat
  import opened GcrLayout

  const FILLER: Byte := 0x55

  /** A sector of the image, with the error to reproduce. */
  datatype Sector = Sector(data: Contents, error: Byte)

  /** Error 21, no sync, blanks the whole track. */
  predicate Blanked(sectors: seq<Sector>) {
    exists i :: 0 <= i < |sectors| && sectors[i].error == 21
  }

  function Zeroes(n: nat): seq<Byte> {
    seq(n, _ => 0)
  }

  function Filler(n: nat): (s: seq<Byte>)
    ensures |s| == n && forall i :: 0 <= i < n ==> s[i] == FILLER
  {
    seq(n, _ => FILLER)
  }

  /** The records of the sectors from this number on; the last one runs to the end of the track. */
  function Records(sectors: seq<Sector>, number: Byte, tail: nat, rest: nat): seq<Record> {
    if sectors == [] then []
    else
      var r := RecordOf(sectors[0], number, if |sectors| == 1 then tail + rest else tail);
      [r] + Records(sectors[1..], number + 1, tail, rest)
  }

  function RecordOf(s: Sector, number: Byte, tail: nat): Record {
    Record(number, s.data, Filler(9), Filler(tail), s.error)
  }

  /** What a drive is given for the sectors of a track. */
  ghost function ImageTrack(f: Format, sectors: seq<Sector>, tail: nat, size: nat): seq<Byte>
    requires |sectors| * (354 + tail) <= size
  {
    if Blanked(sectors) then Zeroes(size) else TrackBytes(f, Records(sectors, 0, tail, size - |sectors| * (354 + tail)))
  }

  /** Clears the track and lays down the sectors: what comes out is their records, and nothing between them. */
  method FormatTrack(f: Format, sectors: seq<Sector>, tail: nat, gcr: array<Byte>)
    requires 0 < |sectors| && |sectors| * (354 + tail) <= gcr.Length
    modifies gcr
    ensures gcr[..] == ImageTrack(f, sectors, tail, gcr.Length)
  {
    hide TrackBytes, RecordBytes;
    var k, p, number: Byte := 0, 0, 0;
    ghost var rest: nat := gcr.Length - |sectors| * (354 + tail);
    ghost var track, done := TrackBytes(f, Records(sectors, 0, tail, rest)), [];
    forall i | 0 <= i < gcr.Length {
      gcr[i] := 0x55;
    }
    assert gcr[..] == done + Filler(gcr.Length);
    assert sectors[0..] == sectors && done + track == track;
    while k < |sectors|
      invariant k <= |sectors| && p == k * (354 + tail) && !Blanked(sectors[..k])
      invariant k < |sectors| ==> |done| == p && gcr[..] == done + Filler(gcr.Length - p)
      invariant k == |sectors| ==> gcr[..] == done
      invariant done + TrackBytes(f, Records(sectors[k..], number, tail, rest)) == track
    {
      if sectors[k].error == 21 {
        forall i | 0 <= i < gcr.Length {
          gcr[i] := 0;
        }
        assert gcr[..] == Zeroes(gcr.Length);
        return;
      }
      Room(|sectors|, k, 354 + tail, rest);
      ghost var r := RecordOf(sectors[k], number, if k + 1 == |sectors| then tail + rest else tail);
      LaySector(f, sectors[k], number, gcr, p, done, |r.tail|);
      FirstRecord(f, sectors[k..], number, tail, rest, done);
      assert sectors[k..][1..] == sectors[k + 1..];
      done := done + RecordBytes(f, r);
      k, number := k + 1, number + 1;
      p := p + 354 + tail;
    }
    assert sectors[..k] == sectors;
    NoRecords(f, done, number, tail, rest);
  }

  /** The block of a sector, with the errors that are in it. */
  method FillImageBlock(s: Sector) returns (block: array<Byte>)
    ensures fresh(block) && block[..] == LaidBlock(s.data, s.error)
  {
    hide Checksum, Inverted;
    block := FillBlock(s.data);
    ghost var whole := block[..];
    assert whole == Block(s.data);
    if s.error == 22 {
      block[0] := 0xff;
    } else if s.error == 23 {
      block[257] := Inverted(block[257]);
    }
    assert forall i :: 1 <= i < 257 ==> block[i] == s.data[i - 1];
  }

  /** Lays down a sector where the filler begins. */
  method LaySector(f: Format, s: Sector, number: Byte, gcr: array<Byte>, p: nat, ghost done: seq<Byte>, ghost tail: nat)
    requires |done| == p && p + 354 + tail <= gcr.Length && gcr[..] == done + Filler(gcr.Length - p)
    modifies gcr
    ensures |RecordBytes(f, RecordOf(s, number, tail))| == 354 + tail
    ensures gcr[..] == done + RecordBytes(f, RecordOf(s, number, tail)) + Filler(gcr.Length - p - 354 - tail)
  {
    hide RecordBytes, Formatted, LaidBlock;
    ghost var t := gcr[..];
    var block := FillImageBlock(s);
    ConvertSectorToGcr(block, gcr, p, f, number, s.error);
    RecordLaid(f, RecordOf(s, number, tail), done, t, gcr[..]);
  }

  lemma {:induction false} Room(n: nat, k: nat, step: nat, rest: nat)
    requires k < n
    ensures (k + 1) * step == k * step + step <= n * step + rest
  {
    if k + 1 < n {
      Room(n - 1, k, step, rest);
      assert n * step == (n - 1) * step + step;
    }
  }

  lemma NoRecords(f: Format, done: seq<Byte>, number: Byte, tail: nat, rest: nat)
    ensures done + TrackBytes(f, Records([], number, tail, rest)) == done
  {}

  lemma FirstRecord(f: Format, sectors: seq<Sector>, number: Byte, tail: nat, rest: nat, done: seq<Byte>)
    requires sectors != []
    ensures var r := RecordOf(sectors[0], number, if |sectors| == 1 then tail + rest else tail);
      done + TrackBytes(f, Records(sectors, number, tail, rest)) ==
        done + RecordBytes(f, r) + TrackBytes(f, Records(sectors[1..], number + 1, tail, rest))
  {
    hide RecordBytes;
    var rs := Records(sectors, number, tail, rest);
    assert rs[1..] == Records(sectors[1..], number + 1, tail, rest);
    assert done + (RecordBytes(f, rs[0]) + TrackBytes(f, rs[1..])) ==
      done + RecordBytes(f, rs[0]) + TrackBytes(f, rs[1..]);
  }

  /** Laid down in filler, a record is what the formatter writes and the filler after it. */
  lemma RecordLaid(f: Format, r: Record, done: seq<Byte>, t: seq<Byte>, u: seq<Byte>)
    requires |t| >= |done| + 354 + |r.tail| && t == done + Filler(|t| - |done|)
    requires r.gap == Filler(9) && r.tail == Filler(|r.tail|)
    requires u ==
      Patch(t, |done|, Formatted(f, r.number, LaidBlock(r.data, r.error), t[|done| + 15..|done| + 24], r.error))
    ensures |RecordBytes(f, r)| == 354 + |r.tail|
    ensures u == done + RecordBytes(f, r) + Filler(|t| - |done| - 354 - |r.tail|)
  {
    hide Formatted, LaidBlock;
    assert t[|done| + 15..|done| + 24] == r.gap;
    var b, left := Formatted(f, r.number, LaidBlock(r.data, r.error), r.gap, r.error), |t| - |done| - 354;
    assert t[|done| + 354..] == Filler(left);
    assert Filler(left) == r.tail + Filler(left - |r.tail|);
    assert u == done + b + (r.tail + Filler(left - |r.tail|));
  }

  // ---------------------------------------------------------------- reading it

  function Number(b: Byte): nat { b as int }

  function WordNumber(w: Word): nat { w as int }

  /** With contents that hold no all-ones byte, up to 224 sectors make a track the searches find their way on. */
  lemma {:induction false} RecordsQuiet(f: Format, sectors: seq<Sector>, number: Byte, tail: nat, rest: nat)
    requires Number(number) + |sectors| <= 0xe0 && forall s <- sectors :: QuietData(s.data)
    ensures AllQuiet(f, Records(sectors, number, tail, rest))
    decreases |sectors|
  {
    hide QuietData, HeaderBytes, Number;
    if sectors != [] {
      Successor(number);
      RecordsQuiet(f, sectors[1..], number + 1, tail, rest);
      NumberQuiet(f, number, sectors[0].error);
    }
  }

  lemma NumberQuiet(f: Format, number: Byte, error: Byte)
    requires Number(number) < 0xe0
    ensures !LooksLikeSync(HeaderBytes(f, number, error))
  {
    HighNibble(number);
  }

  lemma HighNibble(b: Byte)
    requires b < 0xe0
    ensures b >> 4 != 0xe
  {}

  lemma Successor(b: Byte)
    requires Number(b) < 255
    ensures Number(b + 1) == Number(b) + 1
  {
    assert b < 255;
  }

  lemma {:induction false} RecordsFind(sectors: seq<Sector>, number: Byte, tail: nat, rest: nat, sector: Word)
    requires Number(number) + |sectors| < 256
    ensures var i := WordNumber(sector) - Number(number);
      Lookup(Entries(Records(sectors, number, tail, rest)), sector) ==
        if 0 <= i < |sectors| then ImageRead(sectors[i]) else None
    decreases |sectors|
  {
    if sectors != [] {
      Successor(number);
      SameNumber(number, sector);
      LookupFirst(Records(sectors, number, tail, rest), sector);
      hide Wide, Number, WordNumber, Lookup, Entries, ImageRead;
      RecordsFind(sectors[1..], number + 1, tail, rest, sector);
      assert Records(sectors, number, tail, rest)[1..] == Records(sectors[1..], number + 1, tail, rest);
      hide Records;
      assert forall i :: 1 <= i < |sectors| ==> sectors[1..][i - 1] == sectors[i];
    }
  }

  /** What a drive can read of a sector: nothing without its header mark or its block marker. */
  function ImageRead(s: Sector): Option<seq<Byte>> {
    if s.error == 20 || s.error == 22 then None else Some(s.data)
  }

  lemma LookupFirst(rs: seq<Record>, sector: Word)
    requires rs != []
    ensures Lookup(Entries(rs), sector) ==
      if Answers(rs[0], sector) then Readable(rs[0]) else Lookup(Entries(rs[1..]), sector)
  {
    hide Wide;
  }

  lemma SameNumber(b: Byte, sector: Word)
    ensures Wide(b) == sector <==> Number(b) == WordNumber(sector)
  {
    WideIs(b);
    hide Wide, Number;
    SameWord(Wide(b), sector);
  }

  lemma SameWord(a: Word, b: Word)
    ensures a == b <==> WordNumber(a) == WordNumber(b)
  {
    if WordNumber(a) == WordNumber(b) {
      var x := a as int;
      assert x as Word == a && x as Word == b;
    }
  }

  lemma WideIs(b: Byte)
    ensures WordNumber(Wide(b)) == Number(b)
  {}

  /** On a drive's track for an image every sector reads as the image has it, unless an error of its own hides it. */
  lemma ImageReads(f: Format, sectors: seq<Sector>, tail: nat, size: nat, sector: Word)
    requires |sectors| <= 0xe0 && |sectors| * (354 + tail) <= size && forall s <- sectors :: QuietData(s.data)
    ensures ReadSector(ImageTrack(f, sectors, tail, size), Wide(f.track), sector) ==
      if !Blanked(sectors) && WordNumber(sector) < |sectors| then ImageRead(sectors[WordNumber(sector)]) else None
  {
    hide TrackBytes, Records, Entries, Lookup, AllQuiet, Blanked;
    if Blanked(sectors) {
      hide ReadSector;
      NothingToRead(Zeroes(size), Wide(f.track), sector);
    } else {
      hide ReadSector;
      var rest := size - |sectors| * (354 + tail);
      NumberZero();
      hide Number, WordNumber;
      RecordsQuiet(f, sectors, 0, tail, rest);
      TrackReads(f, Records(sectors, 0, tail, rest), sector);
      RecordsFind(sectors, 0, tail, rest, sector);
    }
  }

  lemma NumberZero()
    ensures Number(0) == 0
  {}

  lemma NothingToRead(t: seq<Byte>, track: Word, sector: Word)
    requires NoSync(t)
    ensures ReadSector(t, track, sector) == None
  {
    SkipQuiet(t, track, sector, 0, |t|, 0);
    NothingLeft(t, track, sector, |t|, 0);
    hide FindFrom, FindData, DecodeAll, Window;
  }

  /** The sectors of a new disk hold no all-ones byte. */
  lemma ZeroesQuiet()
    ensures QuietData(seq(256, _ => 0))
  {
    var data: Contents := seq(256, _ => 0);
    ZeroChecksum(data);
    var b := Block(data);
    forall i | 0 <= i < GROUPS ensures !LooksLikeSync(Group(b, i)) {
      assert Group(b, i)[1] == b[4 * i + 1] == 0;
      NoFive();
    }
  }

  lemma NoFive()
    ensures (0 as Byte) & 0x0f != 5
  {}

  lemma {:induction false} ZeroChecksum(data: seq<Byte>)
    requires forall i :: 0 <= i < |data| ==> data[i] == 0
    ensures Checksum(data) == 0
  {
    if data != [] {
      ZeroChecksum(data[..|data| - 1]);
    }
  }
}
