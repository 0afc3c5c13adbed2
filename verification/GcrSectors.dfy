/**
 * What the track routines amount to on any track: searches look only so far,
 * and a sector that was written is read back.
 */
module GcrSectors {
  import opened GcrCode
  import opened GcrTrack

  // ---------------------------------------------------------------- searches look only so far

  lemma {:induction false} AheadWraps(n: nat, p: nat, k: nat)
    requires p < n && n <= p + k < n + n
    ensures Ahead(n, p, k) == p + k - n
  {
    if p + k > n {
      AheadWraps(n, p, k - 1);
    }
  }

  lemma {:induction false} NextSyncAt(t: seq<Byte>, p: nat, q: nat)
    requires p <= q <= |t| && (q < |t| ==> t[q] == 0xff)
    requires forall i :: p <= i < q ==> t[i] != 0xff
    ensures NextSync(t, p) == q
    decreases q - p
  {
    if p < q {
      NextSyncAt(t, p + 1, q);
    }
  }

  lemma {:induction false} SyncEndAt(t: seq<Byte>, p: nat, r: nat)
    requires p <= r <= |t| && (r < |t| ==> t[r] != 0xff)
    requires forall i :: p <= i < r ==> t[i] == 0xff
    ensures SyncEnd(t, p) == r
    decreases r - p
  {
    if p < r {
      SyncEndAt(t, p + 1, r);
    }
  }

  ghost predicate Agree(t: seq<Byte>, u: seq<Byte>, h: nat) {
    |t| == |u| && h <= |t| && forall i :: 0 <= i < h ==> t[i] == u[i]
  }

  /** No header follows the sync mark that the track starts inside of. */
  ghost predicate NoneAtStart(t: seq<Byte>, track: Word, sector: Word) {
    |t| > 0 && t[0] == 0xff && SyncEnd(t, 0) < |t| ==> !HeaderAt(t, SyncEnd(t, 0), track, sector)
  }

  /**
   * A header found at least six bytes into the track was found without passing
   * the track end, and the search read nothing beyond it.
   */
  lemma {:induction false} HeaderIsLocal(t: seq<Byte>, u: seq<Byte>, track: Word, sector: Word, p: nat, syncs: nat,
    h: nat)
    requires Agree(t, u, h) && p <= |t| && 6 <= h
    requires FindFrom(t, track, sector, p, syncs) == Some(h)
    requires p == 0 || NoneAtStart(t, track, sector)
    ensures p + 6 <= h && FindFrom(u, track, sector, p, syncs) == Some(h)
    decreases |t| - p
  {
    hide HeaderAt, FindFrom, SyncEndAround, SyncLength;
    var q := NextSync(t, p);
    if q == |t| {
      NothingLeft(t, track, sector, p, syncs);
    } else {
      NextSyncAt(t, q, q);
      FoundStep(t, track, sector, p, q, syncs);
      var r := SyncEndAround(t, q);
      RoundLocal(t, u, track, sector, p, syncs, h);
      if !HeaderAt(t, r, track, sector) {
        HeaderIsLocal(t, u, track, sector, r + 5, syncs + SyncLength(t, q), h);
      }
      NextSyncAt(u, p, q);
      NextSyncAt(u, q, q);
      SyncEndAt(u, q, r);
      FoundStep(u, track, sector, p, q, syncs);
      SyncLinear(t, q, r);
      SyncLinear(u, q, r);
      SameHeader(t, u, r, track, sector);
    }
  }

  lemma SyncLinear(t: seq<Byte>, q: nat, r: nat)
    requires q < r < |t| && SyncEnd(t, q) == r
    ensures SyncEndAround(t, q) == r && SyncLength(t, q) == r - q
  {}

  lemma SameHeader(t: seq<Byte>, u: seq<Byte>, r: nat, track: Word, sector: Word)
    requires |t| == |u| && r + 5 <= |t| && t[r..r + 5] == u[r..r + 5]
    ensures HeaderAt(t, r, track, sector) == HeaderAt(u, r, track, sector)
  {}

  /** One round of a search that finds h does not pass the track end. */
  lemma RoundLocal(t: seq<Byte>, u: seq<Byte>, track: Word, sector: Word, p: nat, syncs: nat, h: nat)
    requires Agree(t, u, h) && p <= |t| && 6 <= h && NextSync(t, p) < |t|
    requires FindFrom(t, track, sector, p, syncs) == Some(h)
    requires p == 0 || NoneAtStart(t, track, sector)
    ensures var q := NextSync(t, p); var r := SyncEndAround(t, q);
      && q < r && SyncEnd(t, q) == r && r + 5 < |t|
      && (HeaderAt(t, r, track, sector) ==> h == r + 5)
      && (!HeaderAt(t, r, track, sector) ==> NoneAtStart(t, track, sector))
  {
    hide HeaderAt;
    var q := NextSync(t, p);
    var r := SyncEndAround(t, q);
    if p == 0 && t[0] == 0xff {
      assert q == 0;
    }
    if HeaderAt(t, r, track, sector) {
      if r + 5 >= |t| {
        AheadWraps(|t|, r, 5);
      }
    }
  }

  // ---------------------------------------------------------------- tracks of nothing but sync

  /** The header search without a count of sync bytes. */
  function SearchFrom(t: seq<Byte>, track: Word, sector: Word, p: nat): Option<nat>
    requires p <= |t|
    decreases |t| - p
  {
    var q := NextSync(t, p);
    if q == |t| then None
    else
      var r := SyncEndAround(t, q);
      if r == |t| then None
      else if HeaderAt(t, r, track, sector) then Some(Ahead(|t|, r, 5))
      else if r < q || r + 5 >= |t| then None
      else SearchFrom(t, track, sector, r + 5)
  }

  /** The all-ones bytes before p. */
  function OnesBefore(t: seq<Byte>, p: nat): (n: nat)
    requires p <= |t|
    ensures n <= p && (p > 0 && t[0] != 0xff ==> n < p)
  {
    if p == 0 then 0 else OnesBefore(t, p - 1) + if t[p - 1] == 0xff then 1 else 0
  }

  lemma {:induction false} OnesBetween(t: seq<Byte>, p: nat, q: nat)
    requires p <= q <= |t|
    ensures OnesBefore(t, p) <= OnesBefore(t, q)
    ensures (forall i :: p <= i < q ==> t[i] == 0xff) ==> OnesBefore(t, q) == OnesBefore(t, p) + q - p
    decreases q
  {
    if p < q {
      OnesBetween(t, p, q - 1);
    }
  }

  /** Counting sync bytes hides no header on a track with any other byte. */
  lemma {:induction false} CountHidesNothing(t: seq<Byte>, track: Word, sector: Word, p: nat, syncs: nat)
    requires HasData(t) && p <= |t| && syncs <= OnesBefore(t, p) && (p > 0 ==> NoneAtStart(t, track, sector))
    ensures FindFrom(t, track, sector, p, syncs) == SearchFrom(t, track, sector, p)
    decreases |t| - p
  {
    hide HeaderAt, FindFrom, SearchFrom, OnesBefore, Ahead, SyncEnd, SyncLength, SyncEndAround, NextSync, NoneAtStart,
      HasData;
    var q := NextSync(t, p);
    if q == |t| {
      NothingLeft(t, track, sector, p, syncs);
      NothingFound(t, track, sector, p);
    } else {
      NextSyncAt(t, q, q);
      FoundStep(t, track, sector, p, q, syncs);
      SearchStep(t, track, sector, p);
      if SyncEnd(t, q) < |t| {
        var r := SyncEnd(t, q);
        LinearRound(t, p, q, syncs);
        if !HeaderAt(t, r, track, sector) {
          StartPassed(t, track, sector, p, q);
        }
        if !HeaderAt(t, r, track, sector) && r + 5 < |t| {
          CountHidesNothing(t, track, sector, r + 5, syncs + r - q);
        }
      } else {
        WrappedRound(t, track, sector, p, q, syncs);
      }
    }
  }

  lemma NothingFound(t: seq<Byte>, track: Word, sector: Word, p: nat)
    requires p <= |t| && NextSync(t, p) == |t|
    ensures SearchFrom(t, track, sector, p) == None
  {}

  lemma SearchStep(t: seq<Byte>, track: Word, sector: Word, p: nat)
    requires HasData(t) && p <= |t| && NextSync(t, p) < |t|
    ensures var q := NextSync(t, p);
      var r := SyncEndAround(t, q);
      && r < |t|
      && SearchFrom(t, track, sector, p) ==
           if HeaderAt(t, r, track, sector) then Some(Ahead(|t|, r, 5))
           else if r < q || r + 5 >= |t| then None
           else SearchFrom(t, track, sector, r + 5)
  {
    hide HeaderAt, Ahead;
  }

  lemma LinearRound(t: seq<Byte>, p: nat, q: nat, syncs: nat)
    requires p <= q < |t| && t[q] == 0xff && SyncEnd(t, q) < |t| && syncs <= OnesBefore(t, p)
    ensures var r := SyncEnd(t, q);
      && q < r && SyncEndAround(t, q) == r && SyncLength(t, q) == r - q
      && syncs + r - q < |t| && (r + 5 <= |t| ==> syncs + r - q <= OnesBefore(t, r + 5))
  {
    var r := SyncEnd(t, q);
    hide OnesBefore;
    OnesBetween(t, p, q);
    OnesBetween(t, q, r);
    if r + 5 <= |t| {
      OnesBetween(t, r, r + 5);
    }
  }

  lemma StartPassed(t: seq<Byte>, track: Word, sector: Word, p: nat, q: nat)
    requires p <= q < |t| && q == NextSync(t, p) && SyncEnd(t, q) < |t| && (p > 0 ==> NoneAtStart(t, track, sector))
    requires !HeaderAt(t, SyncEnd(t, q), track, sector)
    ensures NoneAtStart(t, track, sector)
  {
    hide HeaderAt;
  }

  lemma WrappedRound(t: seq<Byte>, track: Word, sector: Word, p: nat, q: nat, syncs: nat)
    requires HasData(t) && p <= q < |t| && q == NextSync(t, p) && SyncEnd(t, q) == |t| && syncs <= OnesBefore(t, p)
    requires p > 0 ==> NoneAtStart(t, track, sector)
    ensures var r := SyncEndAround(t, q);
      r < q && (syncs + SyncLength(t, q) >= |t| ==> !HeaderAt(t, r, track, sector))
  {
    hide HeaderAt, OnesBefore;
    if t[0] == 0xff {
      StartsInSync(t, q);
    } else {
      OnesBetween(t, p, q);
    }
  }

  lemma StartsInSync(t: seq<Byte>, q: nat)
    requires HasData(t) && q < |t| && t[0] == 0xff && SyncEnd(t, q) == |t|
    ensures 0 < q && SyncEnd(t, 0) < q
  {
    var i :| 0 <= i < |t| && t[i] != 0xff;
    assert i < q;
    assert SyncEnd(t, 0) <= i;
  }

  /** So the search gives up exactly on a track of nothing else, and otherwise finds what is there. */
  lemma KillerTracks(t: seq<Byte>, track: Word, sector: Word)
    ensures FindHeader(t, track, sector) == if HasData(t) then SearchFrom(t, track, sector, 0) else None
  {
    hide HeaderAt, Ahead;
    if HasData(t) {
      CountHidesNothing(t, track, sector, 0, 0);
    } else if t != [] {
      SyncEndAt(t, 0, |t|);
      NextSyncAt(t, 0, 0);
      FoundStep(t, track, sector, 0, 0, 0);
    }
  }

  /** A sync byte straight ahead is found, and found again wherever the bytes up to it are the same. */
  lemma {:induction false} ScanAhead(t: seq<Byte>, p: nat, passed: nat)
    requires p < |t| && passed < 500 && NextSync(t, p) < |t|
    ensures var q := NextSync(t, p);
      ScanSync(t, p, passed) == if passed + q - p < 500 then Some(q) else None
    decreases 500 - passed
  {
    if t[p] != 0xff && passed + 1 < 500 {
      ScanAhead(t, p + 1, passed + 1);
    }
  }

  lemma {:induction false} WindowAt(t: seq<Byte>, p: nat, k: nat, i: nat)
    requires p < |t| && i < k
    ensures Window(t, p, k)[i] == t[Ahead(|t|, p, i)]
    decreases k
  {
    hide Ahead;
    if i < k - 1 {
      WindowAt(t, p, k - 1, i);
    }
  }

  /** The data search looks at the next 500 bytes and no more: it goes to the first all-ones byte among them. */
  lemma {:induction false} ScanLooks(t: seq<Byte>, p: nat, passed: nat)
    requires p < |t| && passed < 500
    requires forall i :: 0 <= i < passed ==> t[Ahead(|t|, p, i)] != 0xff
    ensures ScanSync(t, Ahead(|t|, p, passed), passed) == None <==> 0xff !in Window(t, p, 500)
    ensures forall k :: 0 <= k < 500 && Window(t, p, 500)[k] == 0xff && 0xff !in Window(t, p, 500)[..k] ==>
      ScanSync(t, Ahead(|t|, p, passed), passed) == Some(Ahead(|t|, p, k))
    decreases 500 - passed
  {
    hide Window;
    var w := Window(t, p, 500);
    forall i | 0 <= i < 500 ensures w[i] == t[Ahead(|t|, p, i)] {
      WindowAt(t, p, 500, i);
    }
    hide Ahead, Ahead1;
    AheadOne(|t|, p, passed);
    if t[Ahead(|t|, p, passed)] == 0xff {
      assert w[passed] == 0xff;
    } else if passed + 1 < 500 {
      ScanLooks(t, p, passed + 1);
    }
  }

  lemma AheadOne(n: nat, p: nat, k: nat)
    requires p < n
    ensures Ahead(n, p, k + 1) == Ahead1(n, Ahead(n, p, k))
  {}

  /** From the header on, then, exactly. */
  lemma DataSearch(t: seq<Byte>, h: nat)
    requires h < |t|
    ensures 0xff !in Window(t, h, 500) ==> FindData(t, h) == None
    ensures forall k :: 0 <= k < 500 && Window(t, h, 500)[k] == 0xff && 0xff !in Window(t, h, 500)[..k] ==>
      FindData(t, h) == var d := SyncEndAround(t, Ahead(|t|, h, k)); if d < |t| then Some(d) else None
  {
    assert Ahead(|t|, h, 0) == h;
    hide Window, SyncEndAround, Ahead;
    ScanLooks(t, h, 0);
  }

  /** Without one straight ahead, the scan can only come back to sync marks that end at or before p. */
  lemma {:induction false} ScanBehind(t: seq<Byte>, p: nat, at: nat, passed: nat)
    requires p < |t| && at < |t| && passed < 500
    requires forall i :: p <= i < |t| ==> t[i] != 0xff
    ensures var q := ScanSync(t, at, passed); q.Some? ==> SyncEndAround(t, q.value) <= p
    decreases 500 - passed
  {
    assert t[p] != 0xff;
    if t[at] != 0xff && passed + 1 < 500 {
      ScanBehind(t, p, Ahead1(|t|, at), passed + 1);
    }
  }

  /** A data block strictly after the header is reached over bytes before it only. */
  lemma DataIsAhead(t: seq<Byte>, h: nat)
    requires h < |t| && FindData(t, h).Some? && h < FindData(t, h).value
    ensures var q := NextSync(t, h); q < |t| && q - h < 500 && FindData(t, h).value == SyncEnd(t, q) < |t|
  {
    var d := FindData(t, h).value;
    var q := NextSync(t, h);
    if q == |t| {
      ScanBehind(t, h, h, 0);
      assert false;
    } else {
      ScanAhead(t, h, 0);
      if SyncEnd(t, q) == |t| {
        assert false;
      }
    }
  }

  lemma DataIsLocal(t: seq<Byte>, u: seq<Byte>, h: nat)
    requires h < |t| && FindData(t, h).Some?
    requires var d := FindData(t, h).value; h < d < |t| && Agree(t, u, d) && u[d] != 0xff
    ensures FindData(u, h) == FindData(t, h)
  {
    hide FindData;
    DataIsAhead(t, h);
    var d, q := FindData(t, h).value, NextSync(t, h);
    NextSyncAt(u, h, q);
    SyncEndAt(u, q, d);
    ScanAhead(t, h, 0);
    ScanAhead(u, h, 0);
    FindDataIs(u, h, q, d);
  }

  lemma FindDataIs(t: seq<Byte>, h: nat, q: nat, d: nat)
    requires h < |t| && ScanSync(t, h, 0) == Some(q) && q < |t| && SyncEnd(t, q) == d < |t|
    ensures FindData(t, h) == Some(d)
  {}

  // ---------------------------------------------------------------- write, then read

  /** A data block begins 0x55: the marker 7 never looks like sync. */
  lemma BlockStarts(data: seq<Byte>)
    requires |data| == 256
    ensures EncodeAll(Block(data), GROUPS)[0] == 0x55
  {
    hide EncodeAll, Block, Encode4;
    var b := Block(data);
    EncodedGroup(b, GROUPS, 0);
    assert EncodeAll(b, GROUPS)[0] == EncodeAll(b, GROUPS)[5 * 0..5 * 0 + 5][0];
    SevenEncodes(Group(b, 0));
  }

  lemma SevenEncodes(s: seq<Byte>)
    requires |s| == 4 && s[0] == 7
    ensures Encode4(s)[0] == 0x55
  {}

  lemma BlockDecodes(data: seq<Byte>)
    requires |data| == 256
    ensures var b := DecodeAll(EncodeAll(Block(data), GROUPS), GROUPS); b[0] == 7 && b[1..257] == data
  {
    DecodeEncodeAll(Block(data), GROUPS);
  }

  /**
   * On any track and for any contents: when the write finds its sector with
   * the header not running over the track end, the data sync after the header,
   * and room for the block before the track end, it changes nothing but the
   * 325 bytes of the block, and reading the sector gives the contents back.
   */
  lemma WriteThenRead(t: seq<Byte>, data: seq<Byte>, track: Word, sector: Word, h: nat, d: nat)
    requires |data| == 256
    requires FindHeader(t, track, sector) == Some(h) && 6 <= h
    requires FindData(t, h) == Some(d) && h < d && d + 5 * GROUPS <= |t|
    ensures var w := WriteSector(t, data, track, sector);
      && w.Some? && |w.value| == |t|
      && w.value[..d] == t[..d] && w.value[d + 5 * GROUPS..] == t[d + 5 * GROUPS..]
      && ReadSector(w.value, track, sector) == Some(data)
  {
    hide FindFrom, FindData, EncodeAll, DecodeAll, Block, Encode4;
    var g := EncodeAll(Block(data), GROUPS);
    var u := Overlay(t, d, g);
    hide Overlay, Window;
    BlockStarts(data);
    OverlayIsPatch(t, d, g);
    assert u == t[..d] + g + t[d + |g|..];
    assert u[d] == g[0] && u[d..d + 5 * GROUPS] == g;
    assert forall i :: 0 <= i < d ==> t[i] == u[i];
    HeaderIsLocal(t, u, track, sector, 0, 0, h);
    DataIsLocal(t, u, h);
    BlockDecodes(data);
  }
}
