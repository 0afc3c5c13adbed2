/**
 * A drive's track byte by byte: what a reader that knows only the group code and where things
 * lie gets from the records of an image, errors included.
 */
module GcrBytes {
  import opened GcrCode
  import opened GcrTrack
  import opened GcrFormat
  import opened GcrLayout
  import opened GcrImage

  /** The ones' complement where an error is being reproduced. */
  function Falsified(b: Byte, wrong: bool): Byte { if wrong then b ^ 0xff else b }

  /**
   * Five all-ones bytes, the header, the ID, the gap, five more all-ones bytes, the block, and
   * the bytes up to the next sector.
   */
  lemma RecordReads(f: Format, r: Record)
    ensures var b, id1 := RecordBytes(f, r), Falsified(f.id1, r.error == 29);
      && |b| == 354 + |r.tail| && b[..5] == b[24..29] == [0xff, 0xff, 0xff, 0xff, 0xff]
      && b[15..24] == r.gap && b[354..] == r.tail
      && Decode5(b[5..10]) == [if r.error == 20 then 0xff else 8,
           Falsified(r.number ^ f.track ^ f.id2 ^ id1, r.error == 27), r.number, f.track]
      && Decode5(b[10..15]) == [f.id2, id1, 0x0f, 0x0f]
      && DecodeAll(b[29..354], GROUPS) ==
           [if r.error == 22 then 0xff else 7] + r.data + [Falsified(Checksum(r.data), r.error == 23), 0, 0]
  {
    var block := LaidBlock(r.data, r.error);
    var whole := Formatted(f, r.number, block, r.gap, r.error);
    FormattedParts(f, r.number, block, r.gap, r.error);
    PartsDecode(f, r, block);
    hide Formatted, Decode5, DecodeAll, Encode4, EncodeAll, HeaderBytes, IdBytes, LaidBlock, Checksum, Falsified;
    HeadSlices(whole, r.tail);
  }

  lemma HeadSlices(whole: seq<Byte>, tail: seq<Byte>)
    requires |whole| == 354
    ensures var b := whole + tail;
      && b[..5] == whole[..5] && b[5..10] == whole[5..10] && b[10..15] == whole[10..15] && b[15..24] == whole[15..24]
      && b[24..29] == whole[24..29] && b[29..354] == whole[29..] && b[354..] == tail
  {}

  lemma PartsDecode(f: Format, r: Record, block: seq<Byte>)
    requires block == LaidBlock(r.data, r.error)
    ensures var id1 := Falsified(f.id1, r.error == 29);
      && Decode5(Encode4(HeaderBytes(f, r.number, r.error))) == [if r.error == 20 then 0xff else 8,
           Falsified(r.number ^ f.track ^ f.id2 ^ id1, r.error == 27), r.number, f.track]
      && Decode5(Encode4(IdBytes(f, r.error))) == [f.id2, id1, 0x0f, 0x0f]
      && DecodeAll(EncodeAll(block, GROUPS), GROUPS) ==
           [if r.error == 22 then 0xff else 7] + r.data + [Falsified(Checksum(r.data), r.error == 23), 0, 0]
  {
    HeaderIs(f, r.number, r.error);
    IdIs(f, r.error);
    BlockIs(r.data, r.error);
    DecodeEncode4(HeaderBytes(f, r.number, r.error));
    DecodeEncode4(IdBytes(f, r.error));
    hide Decode5, DecodeAll, Encode4, EncodeAll, HeaderBytes, IdBytes, LaidBlock, Checksum, Falsified;
    DecodeEncodeAll(block, GROUPS);
  }

  lemma HeaderIs(f: Format, number: Byte, error: Byte)
    ensures HeaderBytes(f, number, error) == [if error == 20 then 0xff else 8,
      Falsified(number ^ f.track ^ f.id2 ^ Falsified(f.id1, error == 29), error == 27), number, f.track]
  {}

  lemma IdIs(f: Format, error: Byte)
    ensures IdBytes(f, error) == [f.id2, Falsified(f.id1, error == 29), 0x0f, 0x0f]
  {}

  lemma BlockIs(data: Contents, error: Byte)
    ensures LaidBlock(data, error) ==
      [if error == 22 then 0xff else 7] + data + [Falsified(Checksum(data), error == 23), 0, 0]
  {
    hide Checksum;
  }

  /** Sectors lie at equal distances. */
  function Place(k: nat, tail: nat): nat { k * (354 + tail) }

  lemma PlaceStep(k: nat, tail: nat)
    ensures Place(0, tail) == 0 && (k > 0 ==> Place(k, tail) == 354 + tail + Place(k - 1, tail))
  {}

  lemma {:induction false} RecordsAt(sectors: seq<Sector>, number: Byte, tail: nat, rest: nat, k: nat)
    requires Number(number) + |sectors| <= 256 && k < |sectors|
    ensures var rs := Records(sectors, number, tail, rest);
      && |rs| == |sectors| && Offset(rs, k) == Place(k, tail) && Number(rs[k].number) == Number(number) + k
      && rs[k] == RecordOf(sectors[k], rs[k].number, if k + 1 == |sectors| then tail + rest else tail)
    decreases |sectors|
  {
    PlaceStep(0, tail);
    hide Number, Place;
    var rs := Records(sectors, number, tail, rest);
    RecordsCount(sectors, number, tail, rest);
    if k > 0 {
      NextNumber(number);
      RecordsAt(sectors[1..], number + 1, tail, rest, k - 1);
      assert rs[1..] == Records(sectors[1..], number + 1, tail, rest);
      PlaceStep(k, tail);
    }
  }

  lemma {:induction false} RecordsCount(sectors: seq<Sector>, number: Byte, tail: nat, rest: nat)
    ensures |Records(sectors, number, tail, rest)| == |sectors|
    decreases |sectors|
  {
    if sectors != [] {
      RecordsCount(sectors[1..], number + 1, tail, rest);
    }
  }

  lemma NextNumber(b: Byte)
    requires Number(b) < 255
    ensures Number(b + 1) == Number(b) + 1
  {
    Successor(b);
  }

  /** The record of sector k, where it lies on the track, and filler wherever nothing is laid down. */
  lemma SectorBytes(f: Format, sectors: seq<Sector>, tail: nat, rest: nat, k: nat) returns (r: Record)
    requires |sectors| <= 256 && k < |sectors|
    ensures Number(r.number) == k && r.data == sectors[k].data && r.error == sectors[k].error
    ensures r.gap == Filler(9) && r.tail == Filler(if k + 1 == |sectors| then tail + rest else tail)
    ensures RecordAt(TrackBytes(f, Records(sectors, 0, tail, rest)), Place(k, tail), f, r)
  {
    RecordsCount(sectors, 0, tail, rest);
    r := Records(sectors, 0, tail, rest)[k];
    NumberZero();
    hide Place, Number, RecordBytes, Records, TrackBytes, RecordAt;
    RecordsAt(sectors, 0, tail, rest, k);
    RecordInTrack(f, Records(sectors, 0, tail, rest), k);
  }

  /** Filler is 0x55, and an error 21 leaves a track of zeros in place of the records. */
  lemma Blank(f: Format, sectors: seq<Sector>, tail: nat, size: nat, i: nat)
    requires |sectors| * (354 + tail) <= size && i < size
    ensures Filler(size)[i] == 0x55
    ensures var t := ImageTrack(f, sectors, tail, size);
      if exists s <- sectors :: s.error == 21 then |t| == size && t[i] == 0
      else t == TrackBytes(f, Records(sectors, 0, tail, size - |sectors| * (354 + tail)))
  {
    hide TrackBytes, Records;
  }
}
