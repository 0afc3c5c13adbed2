/**
 * A track of formatted records, used through the sector routines, is a map
 * from sector numbers to 256 bytes.
 */
module GcrLayout {
  import opened GcrCode
  import opened GcrTrack
  import opened GcrSectors
  import opened GcrFormat

  ghost predicate NoSync(b: seq<Byte>) {
    forall i :: 0 <= i < |b| ==> b[i] != 0xff
  }

  ghost predicate QuietData(data: Contents) {
    forall i :: 0 <= i < GROUPS ==> !LooksLikeSync(Group(Block(data), i))
  }

  /** Nothing outside the two sync marks can be taken for one: not the gaps, not a group of header or contents. */
  ghost predicate Quiet(f: Format, r: Record) {
    && NoSync(r.gap) && NoSync(r.tail) && QuietData(r.data)
    && !LooksLikeSync(HeaderBytes(f, r.number, r.error))
  }

  function RecordBytes(f: Format, r: Record): (b: seq<Byte>)
  {
    Formatted(f, r.number, LaidBlock(r.data, r.error), r.gap, r.error) + r.tail
  }

  function TrackBytes(f: Format, rs: seq<Record>): (t: seq<Byte>)
  {
    if rs == [] then [] else RecordBytes(f, rs[0]) + TrackBytes(f, rs[1..])
  }

  /** The record whose header the search finds first; an error 20 leaves none to find. */
  function Find(rs: seq<Record>, sector: Word): (j: Option<nat>)
    ensures j.Some? ==> j.value < |rs| && Answers(rs[j.value], sector)
  {
    if rs == [] then None
    else if Answers(rs[0], sector) then Some(0)
    else match Find(rs[1..], sector) case None => None case Some(j) => Some(j + 1)
  }

  predicate Answers(r: Record, sector: Word) {
    r.error != 20 && Wide(r.number) == sector
  }

  datatype SectorId = SectorId(number: Word)

  /** What reading a record gives: nothing where the marker of its block is falsified. */
  function Readable(r: Record): Option<seq<Byte>> {
    if r.error == 22 then None else Some(r.data)
  }

  /** The map that the track stands for: the sectors that are there, and what can be read of them. */
  function Entries(rs: seq<Record>): map<SectorId, Option<seq<Byte>>> {
    if rs == [] then map[]
    else if rs[0].error == 20 then Entries(rs[1..])
    else Entries(rs[1..])[SectorId(Wide(rs[0].number)) := Readable(rs[0])]
  }

  function Lookup(m: map<SectorId, Option<seq<Byte>>>, sector: Word): Option<seq<Byte>> {
    if SectorId(sector) in m then m[SectorId(sector)] else None
  }

  lemma {:induction false} EntryFound(rs: seq<Record>, sector: Word)
    ensures SectorId(sector) in Entries(rs) <==> Find(rs, sector).Some?
    ensures Find(rs, sector).Some? ==> Entries(rs)[SectorId(sector)] == Readable(rs[Find(rs, sector).value])
  {
    hide Wide;
    if rs != [] {
      EntryFound(rs[1..], sector);
      if Answers(rs[0], sector) {
        assert Entries(rs)[SectorId(sector)] == Readable(rs[0]);
      } else if Find(rs, sector).Some? {
        assert Entries(rs)[SectorId(sector)] == Entries(rs[1..])[SectorId(sector)];
      }
    }
  }

  // ---------------------------------------------------------------- one record on a track

  function Length(r: Record): nat { 354 + |r.tail| }

  ghost predicate RecordAt(t: seq<Byte>, p: nat, f: Format, r: Record)
  {
    p + Length(r) <= |t| && t[p..p + Length(r)] == RecordBytes(f, r)
  }

  /** Sync, header, quiet bytes, sync, block, quiet bytes. */
  ghost predicate Shape(t: seq<Byte>, p: nat, f: Format, r: Record)
  {
    && p + Length(r) <= |t|
    && (forall i :: p <= i < p + 5 ==> t[i] == 0xff)
    && t[p + 5..p + 10] == Encode4(HeaderBytes(f, r.number, r.error))
    && (forall i :: p + 5 <= i < p + 24 ==> t[i] != 0xff)
    && (forall i :: p + 24 <= i < p + 29 ==> t[i] == 0xff)
    && t[p + 29..p + 354] == EncodeAll(LaidBlock(r.data, r.error), GROUPS)
    && (forall i :: p + 29 <= i < p + Length(r) ==> t[i] != 0xff)
  }

  lemma GroupIsQuiet(s: seq<Byte>)
    requires |s| == 4 && !LooksLikeSync(s)
    ensures NoSync(Encode4(s))
  {
    hide Encode4, LooksLikeSync;
    SyncByteInGroup(s);
  }

  lemma IdsAreQuiet(f: Format, error: Byte)
    ensures NoSync(Encode4(IdBytes(f, error)))
  {
    assert !LooksLikeSync(IdBytes(f, error)) by { FifteenIsQuiet(IdBytes(f, error)); }
    GroupIsQuiet(IdBytes(f, error));
  }

  lemma FifteenIsQuiet(s: seq<Byte>)
    requires |s| == 4 && s[2] == 0x0f
    ensures !LooksLikeSync(s)
  {}

  lemma BlockIsQuiet(data: Contents, error: Byte)
    requires QuietData(data)
    ensures NoSync(EncodeAll(LaidBlock(data, error), GROUPS))
  {
    hide EncodeAll, Block, LaidBlock, LooksLikeSync;
    var b := LaidBlock(data, error);
    var g := EncodeAll(b, GROUPS);
    forall k | 0 <= k < |g| ensures g[k] != 0xff {
      LaidGroup(data, error, k / 5);
      SyncBytes(b, GROUPS, k / 5, k % 5);
      assert 5 * (k / 5) + k % 5 == k;
    }
  }

  /** Neither marker nor checksum decides whether a group holds an all-ones byte. */
  lemma LaidGroup(data: Contents, error: Byte, i: nat)
    requires i < GROUPS
    ensures LooksLikeSync(Group(LaidBlock(data, error), i)) <==> LooksLikeSync(Group(Block(data), i))
  {
    LaidByte(data, error, 4 * i + 2);
    if i < GROUPS - 1 {
      LaidByte(data, error, 4 * i + 1);
    }
    hide LooksLikeSync, LaidBlock, Block;
    var a, b := Group(LaidBlock(data, error), i), Group(Block(data), i);
    assert a[1] == LaidBlock(data, error)[4 * i + 1] && a[2] == LaidBlock(data, error)[4 * i + 2];
    assert b[1] == Block(data)[4 * i + 1] && b[2] == Block(data)[4 * i + 2];
    if i == GROUPS - 1 {
      ZeroIsQuiet(a);
      ZeroIsQuiet(b);
    } else {
      SameSync(a, b);
    }
  }

  lemma LaidByte(data: Contents, error: Byte, k: nat)
    requires 0 < k < 260
    ensures k < 257 ==> LaidBlock(data, error)[k] == Block(data)[k] == data[k - 1]
    ensures k == 258 ==> LaidBlock(data, error)[k] == Block(data)[k] == 0
  {
    hide Checksum, Inverted;
  }

  lemma ZeroIsQuiet(s: seq<Byte>)
    requires |s| == 4 && s[2] == 0
    ensures !LooksLikeSync(s)
  {}

  lemma SameSync(a: seq<Byte>, b: seq<Byte>)
    requires |a| == |b| == 4 && a[1] == b[1] && a[2] == b[2]
    ensures LooksLikeSync(a) <==> LooksLikeSync(b)
  {}

  lemma Slices(t: seq<Byte>, p: nat, b: seq<Byte>, i: nat, j: nat)
    requires p + |b| <= |t| && t[p..p + |b|] == b && i <= j <= |b|
    ensures t[p + i..p + j] == b[i..j]
  {
    assert forall k :: 0 <= k < |b| ==> b[k] == t[p + k];
    assert t[p + i..p + j] == b[i..j];
  }

  lemma RecordShape(t: seq<Byte>, p: nat, f: Format, r: Record)
    requires Quiet(f, r) && RecordAt(t, p, f, r)
    ensures Shape(t, p, f, r)
  {
    hide Encode4, EncodeAll, LaidBlock, LooksLikeSync, HeaderBytes, IdBytes, QuietData;
    GroupIsQuiet(HeaderBytes(f, r.number, r.error));
    IdsAreQuiet(f, r.error);
    BlockIsQuiet(r.data, r.error);
    var b := RecordBytes(f, r);
    FormattedParts(f, r.number, LaidBlock(r.data, r.error), r.gap, r.error);
    hide Formatted;
    var c := Formatted(f, r.number, LaidBlock(r.data, r.error), r.gap, r.error);
    assert t[p..p + 354] == c && t[p + 354..p + Length(r)] == r.tail by {
      Slices(t, p, b, 0, 354);
      Slices(t, p, b, 354, Length(r));
    }
    Slices(t, p, c, 0, 5);
    Slices(t, p, c, 5, 10);
    Slices(t, p, c, 10, 15);
    Slices(t, p, c, 15, 24);
    Slices(t, p, c, 24, 29);
    Slices(t, p, c, 29, 354);
    PieceIsSync(t, p);
    PieceIsSync(t, p + 24);
    PieceIsQuiet(t, p + 5, p + 10);
    PieceIsQuiet(t, p + 10, p + 15);
    PieceIsQuiet(t, p + 15, p + 24);
    PieceIsQuiet(t, p + 29, p + 354);
    PieceIsQuiet(t, p + 354, p + Length(r));
  }

  lemma PieceIsSync(t: seq<Byte>, a: nat)
    requires a + 5 <= |t| && t[a..a + 5] == SYNC
    ensures forall i :: a <= i < a + 5 ==> t[i] == 0xff
  {
    forall i | a <= i < a + 5 ensures t[i] == 0xff {
      assert t[i] == t[a..a + 5][i - a];
    }
  }

  lemma PieceIsQuiet(t: seq<Byte>, a: nat, b: nat)
    requires a <= b <= |t| && NoSync(t[a..b])
    ensures forall i :: a <= i < b ==> t[i] != 0xff
  {
    forall i | a <= i < b ensures t[i] != 0xff {
      assert t[i] == t[a..b][i - a];
    }
  }

  lemma {:induction false} SkipQuiet(t: seq<Byte>, track: Word, sector: Word, a: nat, b: nat, syncs: nat)
    requires a <= b <= |t| && forall i :: a <= i < b ==> t[i] != 0xff
    ensures FindFrom(t, track, sector, a, syncs) == FindFrom(t, track, sector, b, syncs)
  {
    var q := NextSync(t, b);
    NextSyncAt(t, a, q);
    hide NextSync;
    SameRound(t, track, sector, a, b, syncs);
  }

  lemma SameRound(t: seq<Byte>, track: Word, sector: Word, a: nat, b: nat, syncs: nat)
    requires a <= |t| && b <= |t| && NextSync(t, a) == NextSync(t, b)
    ensures FindFrom(t, track, sector, a, syncs) == FindFrom(t, track, sector, b, syncs)
  {
    hide NextSync, SyncEndAround, SyncLength, HeaderAt, Ahead;
  }

  lemma HeaderDecodes(t: seq<Byte>, r: nat, h: seq<Byte>, track: Word, sector: Word)
    requires |h| == 4 && r + 5 <= |t| && t[r..r + 5] == Encode4(h)
    ensures HeaderAt(t, r, track, sector) <==> IsHeader(h, track, sector)
  {
    hide Encode4, Decode5, IsHeader;
    DecodeEncode4(h);
  }

  /** A sync mark of five bytes, straight ahead. */
  lemma RoundAt(t: seq<Byte>, track: Word, sector: Word, p: nat, q: nat, syncs: nat)
    requires p <= q && q + 10 < |t| && syncs + 5 < |t|
    requires forall i :: p <= i < q ==> t[i] != 0xff
    requires forall i :: q <= i < q + 5 ==> t[i] == 0xff
    requires t[q + 5] != 0xff
    ensures FindFrom(t, track, sector, p, syncs) ==
      if HeaderAt(t, q + 5, track, sector) then Some(q + 10) else FindFrom(t, track, sector, q + 10, syncs + 5)
  {
    NextSyncAt(t, p, q);
    NextSyncAt(t, q, q);
    SyncEndAt(t, q, q + 5);
    SyncLinear(t, q, q + 5);
    hide HeaderAt, NextSync, SyncEnd, SyncEndAround, SyncLength, FindFrom;
    FoundStep(t, track, sector, p, q, syncs);
  }

  /** The search passes over a record whose sector it is not looking for, having seen ten sync bytes. */
  lemma RecordSearch(t: seq<Byte>, p: nat, f: Format, r: Record, sector: Word, syncs: nat)
    requires Quiet(f, r) && RecordAt(t, p, f, r) && syncs + 10 < |t|
    ensures FindFrom(t, Wide(f.track), sector, p, syncs) ==
      if Answers(r, sector) then Some(p + 10)
      else FindFrom(t, Wide(f.track), sector, p + Length(r), syncs + 10)
  {
    hide Encode4, EncodeAll, LaidBlock, HeaderAt, FindFrom, QuietData, LooksLikeSync;
    RecordShape(t, p, f, r);
    hide Quiet, RecordAt;
    RoundAt(t, Wide(f.track), sector, p, p, syncs);
    var h := HeaderBytes(f, r.number, r.error);
    HeaderDecodes(t, p + 5, h, Wide(f.track), sector);
    if !Answers(r, sector) {
      RoundAt(t, Wide(f.track), sector, p + 10, p + 24, syncs + 5);
      BlockIsNoHeader(t, p + 29, r.data, r.error, Wide(f.track), sector);
      SkipQuiet(t, Wide(f.track), sector, p + 34, p + Length(r), syncs + 10);
    }
  }

  lemma BlockIsNoHeader(t: seq<Byte>, d: nat, data: Contents, error: Byte, track: Word, sector: Word)
    requires d + 325 <= |t| && t[d..d + 325] == EncodeAll(LaidBlock(data, error), GROUPS)
    ensures !HeaderAt(t, d, track, sector)
  {
    hide Encode4, EncodeAll, LaidBlock, HeaderAt;
    var b := LaidBlock(data, error);
    EncodedGroup(b, GROUPS, 0);
    assert t[d..d + 5] == t[d..d + 325][5 * 0..5 * 0 + 5];
    HeaderDecodes(t, d, Group(b, 0), track, sector);
  }

  // ---------------------------------------------------------------- the whole track

  /** Where record j begins. */
  function Offset(rs: seq<Record>, j: nat): nat
    requires j <= |rs|
  {
    if j == 0 then 0 else Length(rs[0]) + Offset(rs[1..], j - 1)
  }

  ghost predicate AllQuiet(f: Format, rs: seq<Record>) {
    forall r <- rs :: Quiet(f, r)
  }

  lemma {:induction false} RecordInTrack(f: Format, rs: seq<Record>, j: nat)
    requires j < |rs|
    ensures RecordAt(TrackBytes(f, rs), Offset(rs, j), f, rs[j])
  {
    hide RecordBytes;
    RecordLength(f, rs[0]);
    var t, head := TrackBytes(f, rs), RecordBytes(f, rs[0]);
    if j == 0 {
      assert t[0..Length(rs[0])] == head;
    } else {
      RecordInTrack(f, rs[1..], j - 1);
      var o := Offset(rs[1..], j - 1);
      var u := TrackBytes(f, rs[1..]);
      assert rs[1..][j - 1] == rs[j];
      assert t[|head| + o..|head| + o + Length(rs[j])] == u[o..o + Length(rs[j])];
    }
  }

  lemma RecordLength(f: Format, r: Record)
    ensures |RecordBytes(f, r)| == Length(r)
  {}

  lemma {:induction false} TrackLength(f: Format, rs: seq<Record>)
    ensures |TrackBytes(f, rs)| == Offset(rs, |rs|) >= 354 * |rs|
  {
    if rs != [] {
      RecordLength(f, rs[0]);
      TrackLength(f, rs[1..]);
    }
  }

  lemma {:induction false} OffsetStep(rs: seq<Record>, j: nat)
    requires j < |rs|
    ensures Offset(rs, j + 1) == Offset(rs, j) + Length(rs[j])
  {
    if j > 0 {
      OffsetStep(rs[1..], j - 1);
    }
  }

  /** From record i on the search finds the first record that answers. */
  lemma {:induction false} TrackSearch(f: Format, rs: seq<Record>, sector: Word, i: nat)
    requires AllQuiet(f, rs) && i <= |rs|
    ensures var t, p := TrackBytes(f, rs), Offset(rs, i);
      && p <= |t|
      && FindFrom(t, Wide(f.track), sector, p, 10 * i) ==
        match Find(rs[i..], sector) case None => None case Some(j) => Some(Offset(rs, i + j) + 10)
    decreases |rs| - i
  {
    hide RecordBytes, TrackBytes, Quiet, FindFrom, RecordAt, Length, Answers, Wide;
    var t, p := TrackBytes(f, rs), Offset(rs, i);
    TrackLength(f, rs);
    if i == |rs| {
      NothingLeft(t, Wide(f.track), sector, p, 10 * i);
    } else {
      RecordInTrack(f, rs, i);
      RecordSearch(t, p, f, rs[i], sector, 10 * i);
      OffsetStep(rs, i);
      TrackSearch(f, rs, sector, i + 1);
      assert rs[i..][1..] == rs[i + 1..];
    }
  }

  /** Where the block of the found record lies. */
  lemma BlockFound(f: Format, rs: seq<Record>, sector: Word)
    requires AllQuiet(f, rs)
    ensures Find(rs, sector) == None ==> FindHeader(TrackBytes(f, rs), Wide(f.track), sector) == None
    ensures Find(rs, sector).Some? ==>
      var r := rs[Find(rs, sector).value];
      BlockAt(TrackBytes(f, rs), Offset(rs, Find(rs, sector).value), Wide(f.track), sector, LaidBlock(r.data, r.error))
  {
    hide RecordBytes, TrackBytes, Quiet, FindFrom, Find, BlockAt;
    var t := TrackBytes(f, rs);
    TrackSearch(f, rs, sector, 0);
    assert rs[0..] == rs;
    if Find(rs, sector).Some? {
      var j := Find(rs, sector).value;
      RecordInTrack(f, rs, j);
      ShapeBlock(t, Offset(rs, j), f, rs[j], sector);
    }
  }

  /** The search for this sector ends ten bytes into the record at o, and its data block begins at o + 29. */
  ghost predicate BlockAt(t: seq<Byte>, o: nat, track: Word, sector: Word, block: seq<Byte>)
    requires |block| == 4 * GROUPS
  {
    && o + 354 <= |t|
    && FindHeader(t, track, sector) == Some(o + 10)
    && FindData(t, o + 10) == Some(o + 29)
    && t[o + 29..o + 354] == EncodeAll(block, GROUPS)
  }

  lemma ShapeBlock(t: seq<Byte>, o: nat, f: Format, r: Record, sector: Word)
    requires Quiet(f, r) && RecordAt(t, o, f, r) && FindHeader(t, Wide(f.track), sector) == Some(o + 10)
    ensures BlockAt(t, o, Wide(f.track), sector, LaidBlock(r.data, r.error))
  {
    hide Encode4, EncodeAll, LaidBlock, HeaderBytes, FindFrom;
    RecordShape(t, o, f, r);
    NextSyncAt(t, o + 10, o + 24);
    ScanAhead(t, o + 10, 0);
    SyncEndAt(t, o + 24, o + 29);
    FindDataIs(t, o + 10, o + 24, o + 29);
  }

  /** Every read returns the entry of the map, and fails where there is none. */
  lemma TrackReads(f: Format, rs: seq<Record>, sector: Word)
    requires AllQuiet(f, rs)
    ensures ReadSector(TrackBytes(f, rs), Wide(f.track), sector) == Lookup(Entries(rs), sector)
  {
    hide AllQuiet, TrackBytes, FindFrom, FindData, EncodeAll, DecodeAll, LaidBlock, Window, Entries, Find, Wide;
    BlockFound(f, rs, sector);
    EntryFound(rs, sector);
    match Find(rs, sector) {
      case None =>
      case Some(j) => DecodeEncodeAll(LaidBlock(rs[j].data, rs[j].error), GROUPS);
    }
  }

  // ---------------------------------------------------------------- writing

  /** Writing leaves the header alone and makes the block whole. */
  function Rewritten(r: Record, data: Contents): (w: Record)
    ensures w.number == r.number && w.gap == r.gap && w.tail == r.tail && Readable(w) == Some(data)
    ensures forall f :: HeaderBytes(f, w.number, w.error) == HeaderBytes(f, r.number, r.error)
  {
    r.(data := data, error := if r.error == 22 || r.error == 23 then 0 else r.error)
  }

  function Updated(rs: seq<Record>, j: nat, data: Contents): seq<Record>
    requires j < |rs|
  {
    rs[j := Rewritten(rs[j], data)]
  }

  /** Laying down other contents changes the 325 bytes of the block. */
  lemma {:induction false} TrackUpdated(f: Format, rs: seq<Record>, j: nat, data: Contents)
    requires j < |rs|
    ensures Offset(rs, j) + 354 <= |TrackBytes(f, rs)|
    ensures TrackBytes(f, Updated(rs, j, data)) ==
      Patch(TrackBytes(f, rs), Offset(rs, j) + 29, EncodeAll(Block(data), GROUPS))
  {
    hide Formatted, EncodeAll, Block, RecordBytes;
    var t, g := TrackBytes(f, rs), EncodeAll(Block(data), GROUPS);
    var head, rest := RecordBytes(f, rs[0]), TrackBytes(f, rs[1..]);
    RecordLength(f, rs[0]);
    if j == 0 {
      FormattedPatched(f, rs[0], data);
      assert Updated(rs, 0, data)[1..] == rs[1..];
      PatchHead(head, rest, 29, g);
    } else {
      TrackUpdated(f, rs[1..], j - 1, data);
      var o := Offset(rs[1..], j - 1);
      assert Updated(rs, j, data)[1..] == Updated(rs[1..], j - 1, data);
      PatchRest(head, rest, o + 29, g);
    }
  }

  lemma PatchHead(head: seq<Byte>, rest: seq<Byte>, p: nat, g: seq<Byte>)
    requires p + |g| <= |head|
    ensures Patch(head + rest, p, g) == Patch(head, p, g) + rest
  {
    assert (head + rest)[..p] == head[..p] && (head + rest)[p + |g|..] == head[p + |g|..] + rest;
  }

  lemma PatchRest(head: seq<Byte>, rest: seq<Byte>, p: nat, g: seq<Byte>)
    requires p + |g| <= |rest|
    ensures Patch(head + rest, |head| + p, g) == head + Patch(rest, p, g)
  {
    assert (head + rest)[..|head| + p] == head + rest[..p];
    assert (head + rest)[|head| + p + |g|..] == rest[p + |g|..];
  }

  lemma FormattedPatched(f: Format, r: Record, data: Contents)
    ensures |RecordBytes(f, r)| == Length(r)
    ensures RecordBytes(f, Rewritten(r, data)) == Patch(RecordBytes(f, r), 29, EncodeAll(Block(data), GROUPS))
  {
    hide Encode4, EncodeAll, Block, LaidBlock, HeaderBytes;
    assert IdBytes(f, Rewritten(r, data).error) == IdBytes(f, r.error);
    hide IdBytes;
    var a, b := RecordBytes(f, r), RecordBytes(f, Rewritten(r, data));
    assert a[..29] == b[..29];
    assert a[354..] == b[354..] == r.tail;
    assert b[29..354] == EncodeAll(Block(data), GROUPS);
    assert b == b[..29] + b[29..354] + b[354..];
  }

  lemma {:induction false} EntryUpdated(rs: seq<Record>, j: nat, sector: Word, data: Contents)
    requires Find(rs, sector) == Some(j)
    ensures Entries(Updated(rs, j, data)) == Entries(rs)[SectorId(sector) := Some(data)]
    ensures SectorId(sector) in Entries(rs)
  {
    hide Wide;
    EntryFound(rs, sector);
    if j == 0 {
      assert Updated(rs, 0, data)[1..] == rs[1..];
    } else {
      EntryUpdated(rs[1..], j - 1, sector, data);
      assert Updated(rs, j, data)[1..] == Updated(rs[1..], j - 1, data);
    }
  }

  lemma UpdatedQuiet(f: Format, rs: seq<Record>, j: nat, data: Contents)
    requires AllQuiet(f, rs) && j < |rs| && QuietData(data)
    ensures AllQuiet(f, Updated(rs, j, data))
  {
    hide QuietData, HeaderBytes, LooksLikeSync, NoSync;
    forall r | r in Updated(rs, j, data) ensures Quiet(f, r) {
      assert Quiet(f, rs[j]);
      if r != Rewritten(rs[j], data) {
        assert r in rs;
      }
    }
  }

  /** A write changes exactly one entry, and only where there is one. */
  lemma TrackWrites(f: Format, rs: seq<Record>, sector: Word, data: Contents)
    requires AllQuiet(f, rs) && QuietData(data)
    ensures var w := WriteSector(TrackBytes(f, rs), data, Wide(f.track), sector);
      match Find(rs, sector)
      case None => w == None && SectorId(sector) !in Entries(rs)
      case Some(j) =>
        && w == Some(TrackBytes(f, Updated(rs, j, data))) && AllQuiet(f, Updated(rs, j, data))
        && SectorId(sector) in Entries(rs)
        && Entries(Updated(rs, j, data)) == Entries(rs)[SectorId(sector) := Some(data)]
  {
    hide TrackBytes, FindFrom, FindData, EncodeAll, Block, Entries, Find, Offset, QuietData, HeaderBytes,
      LooksLikeSync, AllQuiet, Updated, Wide;
    BlockFound(f, rs, sector);
    EntryFound(rs, sector);
    match Find(rs, sector) {
      case None =>
      case Some(j) =>
        EntryUpdated(rs, j, sector, data);
        TrackUpdated(f, rs, j, data);
        UpdatedQuiet(f, rs, j, data);
        OverlayIsPatch(TrackBytes(f, rs), Offset(rs, j) + 29, EncodeAll(Block(data), GROUPS));
    }
  }

  datatype Write = Write(sector: Word, data: Contents)

  /** A write to a sector that is not there changes nothing. */
  function AfterWrite(t: seq<Byte>, track: Word, w: Write): seq<Byte>
  {
    var u := WriteSector(t, w.data, track, w.sector);
    if u.Some? then u.value else t
  }

  function AfterPut(m: map<SectorId, Option<seq<Byte>>>, w: Write): map<SectorId, Option<seq<Byte>>> {
    if SectorId(w.sector) in m then m[SectorId(w.sector) := Some(w.data)] else m
  }

  function WriteAll(t: seq<Byte>, track: Word, writes: seq<Write>): seq<Byte>
    decreases |writes|
  {
    if writes == [] then t else WriteAll(AfterWrite(t, track, writes[0]), track, writes[1..])
  }

  function PutAll(m: map<SectorId, Option<seq<Byte>>>, writes: seq<Write>): map<SectorId, Option<seq<Byte>>>
    decreases |writes|
  {
    if writes == [] then m else PutAll(AfterPut(m, writes[0]), writes[1..])
  }

  /** After any writes whose contents stay quiet, every sector reads as the map says. */
  lemma {:induction false} TrackIsMap(f: Format, rs: seq<Record>, writes: seq<Write>, sector: Word)
    requires AllQuiet(f, rs)
    requires forall w <- writes :: QuietData(w.data)
    ensures ReadSector(WriteAll(TrackBytes(f, rs), Wide(f.track), writes), Wide(f.track), sector) ==
      Lookup(PutAll(Entries(rs), writes), sector)
    decreases |writes|
  {
    hide TrackBytes, WriteSector, ReadSector, Entries, Find, AllQuiet, QuietData, Updated, Lookup, Wide;
    if writes == [] {
      TrackReads(f, rs, sector);
    } else {
      TrackWrites(f, rs, writes[0].sector, writes[0].data);
      match Find(rs, writes[0].sector) {
        case None => TrackIsMap(f, rs, writes[1..], sector);
        case Some(j) => TrackIsMap(f, Updated(rs, j, writes[0].data), writes[1..], sector);
      }
    }
  }
}
