/**
 * Formatted tracks: one record per sector, laid out one after the other.  Seen
 * through the sector routines such a track is a map from sector numbers to
 * 256 bytes.
 */
module GcrFormat {
  import opened GcrCode
  import opened GcrTrack
  import opened GcrSectors

  /**
   * One sector to be formatted: number, contents, the nine bytes between header
   * and data that the formatter leaves as they are, the bytes up to the next
   * sector, and the error to reproduce.
   */
  datatype Record = Record(number: Byte, data: Contents, gap: Gap, tail: seq<Byte>, error: Byte)

  type Contents = s: seq<Byte> | |s| == 256 witness seq(256, _ => 0)
  type Gap = s: seq<Byte> | |s| == 9 witness seq(9, _ => 0x55)

  datatype Format = Format(track: Byte, id1: Byte, id2: Byte)

  const SYNC: seq<Byte> := [0xff, 0xff, 0xff, 0xff, 0xff]

  function Inverted(b: Byte): Byte { b ^ 0xff }

  function Check(number: Byte, track: Byte, id2: Byte, id1: Byte): Byte { number ^ track ^ id2 ^ id1 }

  function HeaderId1(f: Format, error: Byte): Byte { if error == 29 then Inverted(f.id1) else f.id1 }

  /** Error 29 falsifies the ID, error 27 the header checksum, and error 20 the header mark. */
  function HeaderBytes(f: Format, number: Byte, error: Byte): (h: seq<Byte>)
    ensures |h| == 4 && h[2] == number && h[3] == f.track
    ensures h[0] == 8 <==> error != 20
  {
    var check := Check(number, f.track, f.id2, HeaderId1(f, error));
    [if error == 20 then 0xff else 0x08, if error == 27 then Inverted(check) else check, number, f.track]
  }

  function IdBytes(f: Format, error: Byte): (h: seq<Byte>)
    ensures |h| == 4 && h[2] == 0x0f
  {
    [f.id2, HeaderId1(f, error), 0x0f, 0x0f]
  }

  /** Error 22 falsifies the marker of the block and error 23 its checksum. */
  function LaidBlock(data: Contents, error: Byte): (b: seq<Byte>)
    ensures |b| == 4 * GROUPS && b[1..257] == data && b[0] != 8
    ensures b[0] == 7 <==> error != 22
    ensures error != 22 && error != 23 ==> b == Block(data)
  {
    var check := Checksum(data);
    [if error == 22 then 0xff else 7] + data + [if error == 23 then Inverted(check) else check, 0, 0]
  }

  function Folded(a: Byte, b: Byte, c: Byte, d: Byte, e: Byte): Byte { a ^ b ^ c ^ d ^ e }

  /** The bytes of a header cancel out exactly when error 27 is not being reproduced. */
  lemma HeaderChecksum(f: Format, number: Byte, error: Byte)
    ensures var h, ids := HeaderBytes(f, number, error), IdBytes(f, error);
      Folded(h[1], h[2], h[3], ids[0], ids[1]) == 0 <==> error != 27
  {
    hide Inverted, Check, Folded;
    var id1 := HeaderId1(f, error);
    hide HeaderId1;
    CheckCancels(number, f.track, f.id2, id1);
  }

  lemma CheckCancels(number: Byte, track: Byte, id2: Byte, id1: Byte)
    ensures Folded(Check(number, track, id2, id1), number, track, id2, id1) == 0
    ensures Folded(Inverted(Check(number, track, id2, id1)), number, track, id2, id1) != 0
  {}

  /** The 354 bytes the formatter lays down for a data block, gap included. */
  function Formatted(f: Format, number: Byte, block: seq<Byte>, gap: seq<Byte>, error: Byte): (b: seq<Byte>)
    requires |block| == 4 * GROUPS && |gap| == 9
    ensures |b| == 354
  {
    SYNC + Encode4(HeaderBytes(f, number, error)) + Encode4(IdBytes(f, error)) + gap + SYNC + EncodeAll(block, GROUPS)
  }

  lemma FormattedParts(f: Format, number: Byte, block: seq<Byte>, gap: seq<Byte>, error: Byte)
    requires |block| == 4 * GROUPS && |gap| == 9
    ensures var b := Formatted(f, number, block, gap, error);
      && |b| == 354 && b[..5] == SYNC && b[5..10] == Encode4(HeaderBytes(f, number, error))
      && b[10..15] == Encode4(IdBytes(f, error)) && b[15..24] == gap
      && b[24..29] == SYNC && b[29..] == EncodeAll(block, GROUPS)
  {
    hide Encode4, EncodeAll, HeaderBytes, IdBytes;
    var a := SYNC + Encode4(HeaderBytes(f, number, error));
    var c := a + Encode4(IdBytes(f, error));
    var b := Formatted(f, number, block, gap, error);
    assert b == c + gap + SYNC + EncodeAll(block, GROUPS);
    assert b[..10] == a && b[..15] == c;
  }

  method FillHeaders(f: Format, number: Byte, error: Byte) returns (header: seq<Byte>, ids: seq<Byte>)
    ensures header == HeaderBytes(f, number, error) && ids == IdBytes(f, error)
  {
    hide Inverted, Check;
    var id1 := HeaderId1(f, error);
    var mark: Byte := if error == 20 then 0xff else 0x08;
    var check := Check(number, f.track, f.id2, id1);
    if error == 27 {
      check := Inverted(check);
    }
    return [mark, check, number, f.track], [f.id2, id1, 0x0f, 0x0f];
  }

  method WriteSync(gcr: array<Byte>, p: nat)
    requires p + 5 <= gcr.Length
    modifies gcr
    ensures gcr[..] == Patch(old(gcr[..]), p, SYNC)
  {
    forall i | 0 <= i < 5 {
      gcr[p + i] := 0xff;
    }
  }

  method WriteGroup(group: seq<Byte>, gcr: array<Byte>, p: nat)
    requires |group| == 4 && p + 5 <= gcr.Length
    modifies gcr
    ensures gcr[..] == Patch(old(gcr[..]), p, Encode4(group))
  {
    hide Encode4;
    var buf := new Byte[4](i requires 0 <= i < 4 => group[i]);
    assert buf[0..4] == group;
    Convert4BytesToGcr(buf, 0, gcr, p);
  }

  /** Lays down a sector at p and leaves the gap as it finds it. */
  method ConvertSectorToGcr(block: array<Byte>, gcr: array<Byte>, p: nat, f: Format, number: Byte, error: Byte)
    requires block.Length == 4 * GROUPS && p + 354 <= gcr.Length && block != gcr
    modifies gcr
    ensures gcr[..] == Patch(old(gcr[..]), p, Formatted(f, number, block[..], old(gcr[p + 15..p + 24]), error))
  {
    hide Encode4, EncodeAll, Patch;
    hide HeaderBytes, IdBytes;
    ghost var t := gcr[..];
    var header, ids := FillHeaders(f, number, error);
    WriteSync(gcr, p);
    WriteGroup(header, gcr, p + 5);
    PatchPatch(t, p, SYNC, Encode4(header));
    WriteGroup(ids, gcr, p + 10);
    PatchPatch(t, p, SYNC + Encode4(header), Encode4(ids));
    ghost var first := SYNC + Encode4(header) + Encode4(ids);
    PatchKeep(t, p, first, 9);
    WriteSync(gcr, p + 24);
    PatchPatch(t, p, first + t[p + 15..p + 24], SYNC);
    EncodeGroups(block, gcr, p + 29);
    PatchPatch(t, p, first + t[p + 15..p + 24] + SYNC, EncodeAll(block[..], GROUPS));
  }

  lemma PatchKeep(t: seq<Byte>, p: nat, x: seq<Byte>, k: nat)
    requires p + |x| + k <= |t|
    ensures Patch(t, p, x) == Patch(t, p, x + t[p + |x|..p + |x| + k])
  {
    assert Patch(t, p, x) == Patch(t, p, x + t[p + |x|..p + |x| + k]);
  }
}
