/**
 * Sectors on a circular GCR track: the search for a sector header and its
 * data block, reading a sector and writing one.
 */
module GcrTrack {
  import opened GcrCode

  datatype Option<+T> = None | Some(value: T)

  type Word = bv32

  // ---------------------------------------------------------------- circular positions

  function Ahead1(n: nat, p: nat): (a: nat)
    requires p < n
    ensures a < n
  {
    if p + 1 >= n then 0 else p + 1
  }

  /** The position k steps after p on a track of n bytes. */
  function Ahead(n: nat, p: nat, k: nat): (a: nat)
    requires p < n
    ensures a < n
    ensures p + k < n ==> a == p + k
    ensures p + k == n ==> a == 0
  {
    if k == 0 then p else Ahead1(n, Ahead(n, p, k - 1))
  }

  /** The k bytes that follow each other from position p on. */
  function Window(t: seq<Byte>, p: nat, k: nat): (w: seq<Byte>)
    requires p < |t|
    ensures |w| == k
    ensures p + k <= |t| ==> w == t[p..p + k]
  {
    if k == 0 then [] else Window(t, p, k - 1) + [t[Ahead(|t|, p, k - 1)]]
  }

  /** The track after writing the bytes of g from position p on. */
  function Overlay(t: seq<Byte>, p: nat, g: seq<Byte>): (u: seq<Byte>)
    requires p < |t|
    ensures |u| == |t|
  {
    if g == [] then t
    else
      var k := |g| - 1;
      Overlay(t, p, g[..k])[Ahead(|t|, p, k) := g[k]]
  }

  // ---------------------------------------------------------------- sync marks

  /** The first all-ones byte from p on, or the end of the track. */
  function NextSync(t: seq<Byte>, p: nat): (q: nat)
    requires p <= |t|
    ensures p <= q <= |t| && (q < |t| ==> t[q] == 0xff)
    ensures forall i :: p <= i < q ==> t[i] != 0xff
    decreases |t| - p
  {
    if p == |t| || t[p] == 0xff then p else NextSync(t, p + 1)
  }

  /** The first other byte from p on, or the end of the track. */
  function SyncEnd(t: seq<Byte>, p: nat): (r: nat)
    requires p <= |t|
    ensures p <= r <= |t| && (r < |t| ==> t[r] != 0xff)
    ensures forall i :: p <= i < r ==> t[i] == 0xff
    decreases |t| - p
  {
    if p == |t| || t[p] != 0xff then p else SyncEnd(t, p + 1)
  }

  /** The end of the sync mark at q, around the end of the track. */
  function SyncEndAround(t: seq<Byte>, q: nat): (d: nat)
    requires q < |t|
    ensures d <= |t|
    ensures (exists i :: 0 <= i < |t| && t[i] != 0xff) ==> d < |t| && t[d] != 0xff
  {
    if SyncEnd(t, q) < |t| then SyncEnd(t, q) else SyncEnd(t, 0)
  }

  /** The number of all-ones bytes from q on, around the end of the track. */
  function SyncLength(t: seq<Byte>, q: nat): nat
    requires q < |t|
  {
    if SyncEnd(t, q) < |t| then SyncEnd(t, q) - q else |t| - q + SyncEnd(t, 0)
  }

  // ---------------------------------------------------------------- the header search

  function Wide(b: Byte): Word { b as Word }

  predicate IsHeader(h: seq<Byte>, track: Word, sector: Word)
    requires |h| == 4
  {
    h[0] == 8 && Wide(h[2]) == sector && Wide(h[3]) == track
  }

  /** The five bytes at r decode to a header of this sector. */
  predicate HeaderAt(t: seq<Byte>, r: nat, track: Word, sector: Word)
    requires r < |t|
  {
    IsHeader(Decode5(Window(t, r, 5)), track, sector)
  }

  /**
   * Looks for the header from p on, having passed `syncs` all-ones bytes in
   * all; the search ends with the header that reaches or passes the track end.
   */
  function FindFrom(t: seq<Byte>, track: Word, sector: Word, p: nat, syncs: nat): (h: Option<nat>)
    requires p <= |t|
    ensures h.Some? ==> h.value < |t|
    decreases |t| - p
  {
    var q := NextSync(t, p);
    if q == |t| || syncs + SyncLength(t, q) >= |t| then None
    else
      var r := SyncEndAround(t, q);
      if HeaderAt(t, r, track, sector) then Some(Ahead(|t|, r, 5))
      else if r < q || r + 5 >= |t| then None
      else FindFrom(t, track, sector, r + 5, syncs + SyncLength(t, q))
  }

  function FindHeader(t: seq<Byte>, track: Word, sector: Word): (h: Option<nat>)
    ensures h.Some? ==> h.value < |t|
  {
    FindFrom(t, track, sector, 0, 0)
  }

  /** Reads five bytes from r on, around the track end; tells where it stops and whether it passed the end. */
  method ReadGroup(r: nat, gcr: array<Byte>) returns (group: seq<Byte>, offset: nat, over: bool)
    requires r < gcr.Length
    ensures group == Window(gcr[..], r, 5)
    ensures offset == Ahead(gcr.Length, r, 5)
    ensures over <==> r + 5 >= gcr.Length
  {
    var n := gcr.Length;
    offset, over, group := r, false, [];
    for j := 0 to 5
      invariant 0 <= offset < n && offset == Ahead(n, r, j)
      invariant group == Window(gcr[..], r, j)
      invariant over <==> r + j >= n
    {
      group := group + [gcr[offset]];
      offset := offset + 1;
      if offset >= n {
        offset := 0;
        over := true;
      }
    }
  }

  /** Skips the sync mark at q, or gives up on a track that seems to be nothing else. */
  method SkipSync(q: nat, syncs: nat, gcr: array<Byte>) returns (killed: bool, r: nat, over: bool, count: nat)
    requires q < gcr.Length && gcr[q] == 0xff
    ensures killed <==> syncs + SyncLength(gcr[..], q) >= gcr.Length
    ensures !killed ==> r < gcr.Length && gcr[r] != 0xff && r == SyncEndAround(gcr[..], q)
    ensures !killed ==> count == syncs + SyncLength(gcr[..], q) && over == (SyncEnd(gcr[..], q) == gcr.Length)
  {
    ghost var t := gcr[..];
    var n := gcr.Length;
    r, over, count := q, false, syncs;
    while gcr[r] == 0xff
      invariant 0 <= r < n
      invariant over ==> SyncEnd(t, q) == n && SyncEnd(t, r) == SyncEnd(t, 0)
      invariant !over ==> q <= r && SyncEnd(t, r) == SyncEnd(t, q)
      invariant count == syncs + if over then n - q + r else r - q
      invariant count > syncs ==> count < n
      decreases syncs + n + n - count
    {
      r := r + 1;
      if r == n {
        r := 0;
        over := true;
      }
      count := count + 1;
      if count >= n {
        return true, r, over, count;
      }
    }
    return false, r, over, count;
  }

  method FindSectorHeader(track: Word, sector: Word, gcr: array<Byte>) returns (found: Option<nat>)
    ensures found == FindHeader(gcr[..], track, sector)
  {
    hide Decode5, Window, SyncEnd, NextSync, FindFrom, SyncLength, SyncEndAround, Ahead, IsHeader;
    ghost var t := gcr[..];
    var n := gcr.Length;
    var offset, wrapOver, syncs := 0, false, 0;
    while offset < n && !wrapOver
      invariant 0 <= offset <= n
      invariant FindHeader(t, track, sector) == if wrapOver then None else FindFrom(t, track, sector, offset, syncs)
      decreases if wrapOver then 0 else n - offset + 1
    {
      ghost var p := offset;
      while gcr[offset] != 0xff
        invariant p <= offset < n && NextSync(t, offset) == NextSync(t, p)
        decreases n - offset
      {
        NextSyncStep(t, offset);
        offset := offset + 1;
        if offset >= n {
          NothingLeft(t, track, sector, p, syncs);
          return None;
        }
      }
      ghost var q := offset;
      FoundStep(t, track, sector, p, q, syncs);
      var killed, r, over, count := SkipSync(offset, syncs, gcr);
      if killed {
        return None;
      }
      var header, next, overHeader := ReadGroup(r, gcr);
      wrapOver, offset, syncs := over || overHeader, next, count;
      var data := Decode5(header);
      if IsHeader(data, track, sector) {
        return Some(offset);
      }
    }
    if !wrapOver {
      NothingLeft(t, track, sector, offset, syncs);
    }
    return None;
  }

  /** One round of the search, from p with its sync mark at q. */
  lemma FoundStep(t: seq<Byte>, track: Word, sector: Word, p: nat, q: nat, syncs: nat)
    requires p <= q < |t| && NextSync(t, p) == NextSync(t, q) && t[q] == 0xff
    ensures syncs + SyncLength(t, q) >= |t| ==> FindFrom(t, track, sector, p, syncs) == None
    ensures syncs + SyncLength(t, q) < |t| ==>
      var r := SyncEndAround(t, q);
      && r < |t|
      && (r < q <==> SyncEnd(t, q) == |t|)
      && FindFrom(t, track, sector, p, syncs) ==
        if HeaderAt(t, r, track, sector) then Some(Ahead(|t|, r, 5))
        else if r < q || r + 5 >= |t| then None
        else FindFrom(t, track, sector, r + 5, syncs + SyncLength(t, q))
  {
    hide HeaderAt, Ahead;
  }

  lemma NothingLeft(t: seq<Byte>, track: Word, sector: Word, p: nat, syncs: nat)
    requires p <= |t| && (p < |t| ==> NextSync(t, p) == |t|)
    ensures FindFrom(t, track, sector, p, syncs) == None
  {}

  lemma NextSyncStep(t: seq<Byte>, p: nat)
    requires p < |t| && t[p] != 0xff
    ensures NextSync(t, p) == NextSync(t, p + 1) && NextSync(t, |t|) == |t|
  {}

  // ---------------------------------------------------------------- the data search

  /** The next all-ones byte from p on, around the end, if one comes before the 500th byte passed. */
  function ScanSync(t: seq<Byte>, p: nat, passed: nat): (q: Option<nat>)
    requires p < |t| && passed < 500
    ensures q.Some? ==> q.value < |t| && t[q.value] == 0xff
    decreases 500 - passed
  {
    if t[p] == 0xff then Some(p)
    else if passed + 1 >= 500 then None
    else ScanSync(t, Ahead1(|t|, p), passed + 1)
  }

  function FindData(t: seq<Byte>, p: nat): (d: Option<nat>)
    requires p < |t|
  {
    match ScanSync(t, p, 0)
    case None => None
    case Some(q) => if SyncEndAround(t, q) < |t| then Some(SyncEndAround(t, q)) else None
  }

  /** Some byte of the track is not all ones: without one, skipping a sync mark would never end. */
  ghost predicate HasData(t: seq<Byte>) {
    exists i :: 0 <= i < |t| && t[i] != 0xff
  }

  ghost function StepsTo(n: nat, p: nat, w: nat): nat
    requires p < n && w < n
  {
    if p <= w then w - p else n - p + w
  }

  method FindSectorData(start: nat, gcr: array<Byte>) returns (found: Option<nat>)
    requires start < gcr.Length && HasData(gcr[..])
    ensures found == FindData(gcr[..], start)
  {
    ghost var t := gcr[..];
    var n := gcr.Length;
    var offset, header := start, 0;
    while gcr[offset] != 0xff
      invariant 0 <= offset < n && header < 500
      invariant ScanSync(t, start, 0) == ScanSync(t, offset, header)
      decreases 500 - header
    {
      offset := offset + 1;
      if offset >= n {
        offset := 0;
      }
      header := header + 1;
      if header >= 500 {
        return None;
      }
    }
    offset := SkipSyncAround(offset, gcr);
    return Some(offset);
  }

  method SkipSyncAround(q: nat, gcr: array<Byte>) returns (offset: nat)
    requires q < gcr.Length && HasData(gcr[..])
    ensures offset == SyncEndAround(gcr[..], q)
  {
    ghost var t, wrapped := gcr[..], false;
    ghost var w :| 0 <= w < |t| && t[w] != 0xff;
    offset := q;
    while gcr[offset] == 0xff
      invariant 0 <= offset < gcr.Length
      invariant wrapped ==> SyncEnd(t, q) == |t| && SyncEnd(t, offset) == SyncEnd(t, 0)
      invariant !wrapped ==> q <= offset && SyncEnd(t, offset) == SyncEnd(t, q)
      decreases StepsTo(|t|, offset, w)
    {
      offset := offset + 1;
      if offset == gcr.Length {
        offset := 0;
        wrapped := true;
      }
    }
  }

  /** A found header is followed by a search that ends: the track holds a byte that is not all ones. */
  lemma {:induction false} FoundHasData(t: seq<Byte>, track: Word, sector: Word, p: nat, syncs: nat)
    requires p <= |t| && FindFrom(t, track, sector, p, syncs).Some?
    ensures HasData(t)
    decreases |t| - p
  {
    hide HeaderAt, Ahead;
    assert t[SyncEndAround(t, NextSync(t, p))] != 0xff;
  }

  // ---------------------------------------------------------------- reading and writing

  const GROUPS: nat := 65

  /** The data block of a sector as the drive sees it: marker, contents, checksum, two unused bytes. */
  function Block(data: seq<Byte>): (b: seq<Byte>)
    requires |data| == 256
    ensures |b| == 4 * GROUPS && b[0] == 7 && b[1..257] == data
  {
    [7] + data + [Checksum(data), 0, 0]
  }

  function Checksum(data: seq<Byte>): Byte {
    if data == [] then 0 else Checksum(data[..|data| - 1]) ^ data[|data| - 1]
  }

  function Xor(a: Byte, b: Byte): Byte { a ^ b }

  lemma XorMoves(a: Byte, x: Byte, b: Byte)
    ensures Xor(Xor(a, x), b) == Xor(Xor(a, b), x)
  {}

  lemma XorAssociates(a: Byte, b: Byte, x: Byte)
    ensures Xor(a, Xor(b, x)) == Xor(Xor(a, b), x)
  {}

  /** A change of any one byte changes the checksum by as much. */
  lemma ChecksumChange(data: seq<Byte>, i: nat, x: Byte)
    requires i < |data|
    ensures Checksum(data[i := data[i] ^ x]) == Checksum(data) ^ x
  {
    ChecksumMoves(data, i, x);
  }

  lemma {:induction false} ChecksumMoves(data: seq<Byte>, i: nat, x: Byte)
    requires i < |data|
    ensures Checksum(data[i := Xor(data[i], x)]) == Xor(Checksum(data), x)
    decreases |data|
  {
    hide Xor;
    var n := |data| - 1;
    var changed := data[i := Xor(data[i], x)];
    ChecksumStep(data);
    ChecksumStep(changed);
    XorMoves(Checksum(data[..n]), x, data[n]);
    if i < n {
      assert changed[..n] == data[..n][i := Xor(data[..n][i], x)];
      ChecksumMoves(data[..n], i, x);
    } else {
      assert changed[..n] == data[..n];
      XorAssociates(Checksum(data[..n]), data[n], x);
    }
  }

  lemma ChecksumStep(data: seq<Byte>)
    requires data != []
    ensures Checksum(data) == Xor(Checksum(data[..|data| - 1]), data[|data| - 1])
  {}

  /** The contents and their checksum cancel out. */
  lemma BlockChecksum(data: seq<Byte>)
    requires |data| == 256
    ensures Checksum(Block(data)[1..258]) == 0
  {
    var d := data + [Checksum(data)];
    assert Block(data)[1..258] == d && d[..256] == data;
  }

  function ReadSector(t: seq<Byte>, track: Word, sector: Word): Option<seq<Byte>> {
    match FindHeader(t, track, sector)
    case None => None
    case Some(h) =>
      match FindData(t, h)
      case None => None
      case Some(d) =>
        var buffer := DecodeAll(Window(t, d, 5 * GROUPS), GROUPS);
        if buffer[0] != 7 then None else Some(buffer[1..257])
  }

  function WriteSector(t: seq<Byte>, data: seq<Byte>, track: Word, sector: Word): Option<seq<Byte>>
    requires |data| == 256
  {
    match FindHeader(t, track, sector)
    case None => None
    case Some(h) =>
      match FindData(t, h)
      case None => None
      case Some(d) => Some(Overlay(t, d, EncodeAll(Block(data), GROUPS)))
  }

  /** Decodes the 65 groups from p on, around the track end. */
  method ConvertGcrToSector(p: nat, gcr: array<Byte>) returns (buffer: array<Byte>)
    requires p < gcr.Length
    ensures fresh(buffer) && buffer[..] == DecodeAll(Window(gcr[..], p, 5 * GROUPS), GROUPS)
  {
    hide Decode5, Window, DecodeAll;
    ghost var t := gcr[..];
    buffer := new Byte[4 * GROUPS];
    var offset := p;
    var i := 0;
    DecodedStart(t, p);
    while i < GROUPS
      invariant 0 <= i <= GROUPS && gcr[..] == t
      invariant offset == Ahead(|t|, p, 5 * i)
      invariant buffer[..4 * i] == DecodeAll(Window(t, p, 5 * i), i)
    {
      var group, next, _ := ReadGroup(offset, gcr);
      ConvertGcrTo4Bytes(group, buffer, 4 * i);
      DecodedStep(t, p, i);
      AheadAhead(|t|, p, 5 * i, 5);
      offset := next;
      i := i + 1;
    }
    assert buffer[..] == buffer[..4 * GROUPS];
  }

  lemma DecodedStart(t: seq<Byte>, p: nat)
    requires p < |t|
    ensures Window(t, p, 0) == [] && DecodeAll([], 0) == []
  {}

  lemma {:induction false} AheadAhead(n: nat, p: nat, k: nat, j: nat)
    requires p < n
    ensures Ahead(n, p, k + j) == Ahead(n, Ahead(n, p, k), j)
  {
    if j > 0 {
      AheadAhead(n, p, k, j - 1);
    }
  }

  lemma {:induction false} WindowSplit(t: seq<Byte>, p: nat, k: nat, j: nat)
    requires p < |t|
    ensures Window(t, p, k + j) == Window(t, p, k) + Window(t, Ahead(|t|, p, k), j)
  {
    if j > 0 {
      WindowSplit(t, p, k, j - 1);
      AheadAhead(|t|, p, k, j - 1);
    }
  }

  lemma DecodedStep(t: seq<Byte>, p: nat, i: nat)
    requires p < |t|
    ensures DecodeAll(Window(t, p, 5 * i + 5), i + 1) ==
      DecodeAll(Window(t, p, 5 * i), i) + Decode5(Window(t, Ahead(|t|, p, 5 * i), 5))
  {
    hide Decode5;
    WindowSplit(t, p, 5 * i, 5);
    var w := Window(t, p, 5 * i + 5);
    hide Window;
    assert w[..5 * i] == Window(t, p, 5 * i) && w[5 * i..] == Window(t, Ahead(|t|, p, 5 * i), 5);
  }

  method ReadGcrSector(gcr: array<Byte>, track: Word, sector: Word) returns (data: Option<seq<Byte>>)
    ensures data == ReadSector(gcr[..], track, sector)
  {
    hide FindFrom, FindData, DecodeAll, Window;
    var header := FindSectorHeader(track, sector, gcr);
    if header.None? {
      return None;
    }
    FoundHasData(gcr[..], track, sector, 0, 0);
    var found := FindSectorData(header.value, gcr);
    if found.None? {
      return None;
    }
    DataInTrack(gcr[..], header.value);
    var buffer := ConvertGcrToSector(found.value, gcr);
    if buffer[0] != 0x7 {
      return None;
    }
    return Some(buffer[1..257]);
  }

  lemma DataInTrack(t: seq<Byte>, p: nat)
    requires p < |t| && FindData(t, p).Some?
    ensures FindData(t, p).value < |t|
  {}

  method WriteGcrSector(gcr: array<Byte>, data: seq<Byte>, track: Word, sector: Word) returns (ok: bool)
    requires |data| == 256
    modifies gcr
    ensures var w := WriteSector(old(gcr[..]), data, track, sector);
      ok == w.Some? && gcr[..] == if ok then w.value else old(gcr[..])
  {
    hide FindFrom, FindData, EncodeAll, Encode4, Block, Overlay;
    ghost var t := gcr[..];
    var header := FindSectorHeader(track, sector, gcr);
    if header.None? {
      return false;
    }
    FoundHasData(t, track, sector, 0, 0);
    var found := FindSectorData(header.value, gcr);
    if found.None? {
      return false;
    }
    DataInTrack(t, header.value);
    var buffer := FillBlock(data);
    var code := EncodeBlock(buffer);
    ghost var g := code[..];
    var offset := found.value;
    var i := 0;
    OverlayNone(t, offset);
    while i < 5 * GROUPS
      invariant code[..] == g
      invariant 0 <= i <= 5 * GROUPS && offset == Ahead(|t|, found.value, i)
      invariant |g| == 5 * GROUPS && gcr[..] == Overlay(t, found.value, g[..i])
    {
      gcr[offset] := code[i];
      OverlayStep(t, found.value, g, i);
      offset := offset + 1;
      if offset == gcr.Length {
        offset := 0;
      }
      i := i + 1;
    }
    assert g[..i] == g;
    return true;
  }

  lemma {:induction false} OverlayIsPatch(t: seq<Byte>, p: nat, g: seq<Byte>)
    requires p < |t| && p + |g| <= |t|
    ensures Overlay(t, p, g) == Patch(t, p, g)
  {
    if g != [] {
      OverlayIsPatch(t, p, g[..|g| - 1]);
    }
  }

  lemma OverlayNone(t: seq<Byte>, p: nat)
    requires p < |t|
    ensures Overlay(t, p, []) == t
  {}

  lemma OverlayStep(t: seq<Byte>, p: nat, g: seq<Byte>, i: nat)
    requires p < |t| && i < |g|
    ensures Overlay(t, p, g[..i + 1]) == Overlay(t, p, g[..i])[Ahead(|t|, p, i) := g[i]]
  {
    assert g[..i + 1][..i] == g[..i];
  }

  /** Marker, contents, and the exclusive-or of the contents. */
  method FillBlock(data: seq<Byte>) returns (buffer: array<Byte>)
    requires |data| == 256
    ensures fresh(buffer) && buffer[..] == Block(data)
  {
    buffer := new Byte[4 * GROUPS](_ => 0);
    buffer[0] := 0x7;
    forall i | 0 <= i < 256 {
      buffer[i + 1] := data[i];
    }
    var chksum := buffer[1];
    var i := 2;
    ghost var filled := buffer[..];
    while i < 257
      invariant 2 <= i <= 257 && buffer[..] == filled
      invariant chksum == Checksum(data[..i - 1])
    {
      assert data[..i][..i - 1] == data[..i - 1];
      chksum := chksum ^ buffer[i];
      i := i + 1;
    }
    assert data[..256] == data;
    buffer[257] := chksum;
    buffer[258], buffer[259] := 0, 0;
  }

  /** A buffer with the bytes of x at p. */
  function Patch(t: seq<Byte>, p: nat, x: seq<Byte>): (u: seq<Byte>)
    requires p + |x| <= |t|
    ensures |u| == |t|
  {
    t[..p] + x + t[p + |x|..]
  }

  lemma PatchPatch(t: seq<Byte>, p: nat, x: seq<Byte>, y: seq<Byte>)
    requires p + |x| + |y| <= |t|
    ensures Patch(Patch(t, p, x), p + |x|, y) == Patch(t, p, x + y)
  {
    assert Patch(Patch(t, p, x), p + |x|, y) == Patch(t, p, x + y);
  }

  method EncodeGroup(buffer: array<Byte>, at: nat, code: array<Byte>, p: nat)
    requires at + 4 <= buffer.Length && p + 5 <= code.Length && buffer != code
    modifies code
    ensures code[..] == Patch(old(code[..]), p, Encode4(buffer[at..at + 4]))
  {
    hide Encode4;
    Convert4BytesToGcr(buffer, at, code, p);
  }

  /** Encodes the block of a sector group by group, from p on. */
  method EncodeGroups(buffer: array<Byte>, code: array<Byte>, p: nat)
    requires buffer.Length == 4 * GROUPS && p + 5 * GROUPS <= code.Length && buffer != code
    modifies code
    ensures code[..] == Patch(old(code[..]), p, EncodeAll(buffer[..], GROUPS))
  {
    hide Encode4, EncodeAll;
    ghost var s, t := buffer[..], code[..];
    var i := 0;
    EncodedStart();
    assert code[..] == Patch(t, p, []);
    while i < GROUPS
      invariant 0 <= i <= GROUPS && buffer[..] == s
      invariant code[..] == Patch(t, p, EncodeAll(s[..4 * i], i))
    {
      hide Patch;
      EncodeGroup(buffer, 4 * i, code, p + 5 * i);
      EncodedStep(s, i);
      PatchPatch(t, p, EncodeAll(s[..4 * i], i), Encode4(s[4 * i..4 * i + 4]));
      i := i + 1;
    }
    assert s == s[..4 * GROUPS];
  }

  method EncodeBlock(buffer: array<Byte>) returns (code: array<Byte>)
    requires buffer.Length == 4 * GROUPS
    ensures fresh(code) && code.Length == 5 * GROUPS && code[..] == EncodeAll(buffer[..], GROUPS)
  {
    hide EncodeAll;
    code := new Byte[5 * GROUPS];
    EncodeGroups(buffer, code, 0);
    assert code[..] == EncodeAll(buffer[..], GROUPS);
  }

  lemma EncodedStart()
    ensures EncodeAll([], 0) == []
  {}

  lemma EncodedStep(s: seq<Byte>, i: nat)
    requires 4 * i + 4 <= |s|
    ensures EncodeAll(s[..4 * i + 4], i + 1) == EncodeAll(s[..4 * i], i) + Encode4(s[4 * i..4 * i + 4])
  {
    assert s[..4 * i + 4][..4 * i] == s[..4 * i] && s[..4 * i + 4][4 * i..] == s[4 * i..4 * i + 4];
  }
}
