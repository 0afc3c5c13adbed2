/**
 * The colour allocator: colours of the display backend shared between owners,
 * each owner asking for a palette at a time.
 */
module ColorAlloc {
  import opened ColorLists

  datatype Answer = Refused | Given(pixel: int, data: int)

  /** The display backend: what it answers to its n-th request, and the colours it has handed out. */
  class Backend {
    const answers: nat -> Answer
    var calls: nat
    var live: multiset<Color>

    constructor (answers: nat -> Answer)
      ensures this.answers == answers && calls == 0 && live == multiset{}
    {
      this.answers := answers;
      calls := 0;
      live := multiset{};
    }

    method AllocColor(rgb: Rgb) returns (r: Answer)
      modifies this
      ensures r == answers(old(calls)) && calls == old(calls) + 1
      ensures live == old(live) + if r.Given? then multiset{Color(rgb, r.pixel)} else multiset{}
    {
      r := answers(calls);
      calls := calls + 1;
      if r.Given? {
        live := live + multiset{Color(rgb, r.pixel)};
      }
    }

    method FreeColor(rgb: Rgb, pixel: int)
      modifies this
      ensures calls == old(calls) && live == old(live) - multiset{Color(rgb, pixel)}
    {
      live := live - multiset{Color(rgb, pixel)};
    }
  }

  // ---------------------------------------------------------------- one request, on values

  ghost predicate AllGiven(answers: nat -> Answer, k: nat, n: nat) {
    forall j :: k <= j < k + n ==> answers(j).Given?
  }

  /** The entries with the pixels that the backend gives from its k-th request on. */
  ghost function Filled<O>(list: seq<Entry<O>>, answers: nat -> Answer, k: nat): (r: seq<Entry<O>>)
    requires AllGiven(answers, k, |list|)
    ensures |r| == |list|
  {
    seq(|list|, i requires 0 <= i < |list| => list[i].(pixel := answers(k + i).pixel, data := answers(k + i).data))
  }

  /** The colours that have to be asked for. */
  function Wanted<O>(list: seq<Entry<O>>, c: O, palette: seq<Rgb>): seq<Entry<O>> {
    Common(list, PaletteList(c, palette), false)
  }

  lemma PaletteEntries<O>(list: seq<Entry<O>>, c: O, palette: seq<Rgb>, has: bool)
    ensures forall e <- Common(list, PaletteList(c, palette), has) ::
      e.owners == [c] && e.rgb in palette && HasRgb(list, e.rgb) == has
    ensures forall rgb <- palette :: HasRgb(list, rgb) == has ==>
      HasRgb(Common(list, PaletteList(c, palette), has), rgb)
  {
    var p := PaletteList(c, palette);
    CommonMeans(list, p, has);
    forall rgb | rgb in palette && HasRgb(list, rgb) == has ensures HasRgb(Common(list, p, has), rgb) {
      var i :| 0 <= i < |palette| && palette[i] == rgb;
      assert p[i] in p;
      var q := Common(list, p, has);
      var j :| 0 <= j < |q| && q[j] == p[i];
      assert q[j].rgb == rgb;
    }
  }

  /** The list once ownership has moved and the new colours are in, before the ownerless are thrown out. */
  function Listed<O(==)>(list: seq<Entry<O>>, c: O, palette: seq<Rgb>, added: seq<Entry<O>>): seq<Entry<O>> {
    PaletteEntries(list, c, palette, true);
    AddFrom(RemoveOwner(list, c), Common(list, PaletteList(c, palette), true)) + added
  }

  ghost predicate Answered<O>(list: seq<Entry<O>>, c: O, palette: seq<Rgb>, added: seq<Entry<O>>) {
    var w := Wanted(list, c, palette);
    |added| == |w| && forall i :: 0 <= i < |w| ==> added[i].rgb == w[i].rgb && added[i].owners == [c]
  }

  /** New colours come behind the old ones. */
  lemma ListedOrder<O>(list: seq<Entry<O>>, c: O, palette: seq<Rgb>, added: seq<Entry<O>>)
    requires OwnersDistinct(list)
    ensures var all := Listed(list, c, palette, added);
      |all| == |list| + |added| && SameColors(list, all[..|list|]) && all[|list|..] == added
  {
    SharedPart(list, c, palette);
  }

  lemma SharedPart<O>(list: seq<Entry<O>>, c: O, palette: seq<Rgb>)
    requires OwnersDistinct(list)
    ensures forall e <- Common(list, PaletteList(c, palette), true) :: e.owners != []
    ensures var r := AddFrom(RemoveOwner(list, c), Common(list, PaletteList(c, palette), true));
      && SameColors(list, r) && OwnersDistinct(r)
      && (forall o :: o != c ==> Holdings(r, o) == Holdings(list, o))
      && (forall rgb :: Owns(r, c, rgb) <==> rgb in palette && HasRgb(list, rgb))
  {
    hide Owns, OwnersDistinct;
    var s, m := Common(list, PaletteList(c, palette), true), RemoveOwner(list, c);
    PaletteEntries(list, c, palette, true);
    RemoveOwnerMeans(list, c, c);
    forall e | e in s ensures HasRgb(m, e.rgb) {
      SameHasRgb(list, m, e.rgb);
    }
    AddFromMeans(m, s, c);
    var r := AddFrom(m, s);
    forall o | o != c ensures Holdings(r, o) == Holdings(list, o) {
      RemoveOwnerMeans(list, c, o);
      SameHoldings(r, m, o);
    }
    forall rgb ensures Owns(r, c, rgb) <==> rgb in palette && HasRgb(list, rgb) {
      NotOwned(m, c, rgb);
      HasRgbIn(s, rgb);
    }
  }

  lemma NotOwned<O>(m: seq<Entry<O>>, c: O, rgb: Rgb)
    requires forall i :: 0 <= i < |m| ==> c !in m[i].owners
    ensures !Owns(m, c, rgb)
  {}

  lemma HasRgbIn<O>(s: seq<Entry<O>>, rgb: Rgb)
    ensures HasRgb(s, rgb) ==> exists e :: e in s && e.rgb == rgb
  {
    if HasRgb(s, rgb) {
      var i :| 0 <= i < |s| && s[i].rgb == rgb;
      assert s[i] in s;
    }
  }

  /**
   * A successful request: the backend's colours are those listed before plus
   * the new ones minus the ownerless ones; nobody else's holdings change; the
   * caller owns the colours of its palette and no others; and every colour of
   * the palette has a pixel.
   */
  lemma RequestMeans<O>(list: seq<Entry<O>>, c: O, palette: seq<Rgb>, added: seq<Entry<O>>)
    requires OwnersDistinct(list) && Answered(list, c, palette, added)
    ensures var all := Listed(list, c, palette, added); var after := Owned(all, true);
      && Colors(after) + Colors(Owned(all, false)) == Colors(list) + Colors(added)
      && (forall o :: o != c ==> Holdings(after, o) == Holdings(list, o))
      && (forall rgb :: Owns(after, c, rgb) <==> rgb in palette)
      && OwnersDistinct(after) && forall e <- after :: e.owners != []
  {
    hide Owns, Colors, Holdings;
    PaletteEntries(list, c, palette, true);
    PaletteEntries(list, c, palette, false);
    SharedPart(list, c, palette);
    var r := AddFrom(RemoveOwner(list, c), Common(list, PaletteList(c, palette), true));
    var all := r + added;
    SameColorsColors(list, r);
    ColorsAppend(r, added);
    OwnedColors(all);
    forall o | o != c ensures Holdings(Owned(all, true), o) == Holdings(list, o) {
      HoldingsAppend(r, added, o);
      NoHoldings(added, o);
      OwnedMeans(all, o);
    }
    forall rgb ensures Owns(Owned(all, true), c, rgb) <==> rgb in palette {
      OwnedOwns(all, c, rgb);
      OwnsAppend(r, added, c, rgb);
      AnsweredRgbs(list, c, palette, added, rgb);
    }
    OwnedMeans(all, c);
    DistinctKept(all, Owned(all, true));
  }

  lemma OwnsAppend<O>(a: seq<Entry<O>>, b: seq<Entry<O>>, c: O, rgb: Rgb)
    requires forall i :: 0 <= i < |b| ==> b[i].owners == [c]
    ensures Owns(a + b, c, rgb) <==> Owns(a, c, rgb) || HasRgb(b, rgb)
  {
    if Owns(a, c, rgb) {
      var i :| 0 <= i < |a| && a[i].rgb == rgb && c in a[i].owners;
      assert (a + b)[i].rgb == rgb;
    }
    if HasRgb(b, rgb) {
      var i :| 0 <= i < |b| && b[i].rgb == rgb;
      assert (a + b)[|a| + i].rgb == rgb && c in b[i].owners;
    }
  }

  lemma AnsweredRgbs<O>(list: seq<Entry<O>>, c: O, palette: seq<Rgb>, added: seq<Entry<O>>, rgb: Rgb)
    requires Answered(list, c, palette, added)
    ensures HasRgb(added, rgb) <==> rgb in palette && !HasRgb(list, rgb)
  {
    var w := Wanted(list, c, palette);
    PaletteEntries(list, c, palette, false);
    if HasRgb(added, rgb) {
      var i :| 0 <= i < |added| && added[i].rgb == rgb;
      assert w[i] in w && w[i].rgb == rgb;
    }
    if HasRgb(w, rgb) {
      var i :| 0 <= i < |w| && w[i].rgb == rgb;
      assert added[i].rgb == rgb;
    }
  }

  lemma DistinctKept<O>(all: seq<Entry<O>>, some: seq<Entry<O>>)
    requires OwnersDistinct(all) && forall e <- some :: e in all
    ensures OwnersDistinct(some)
  {
    forall i | 0 <= i < |some| ensures Distinct(some[i].owners) {
      assert some[i] in some;
    }
  }

  // ---------------------------------------------------------------- the allocator

  class Allocator<O(==, !new)> {
    var alloced: seq<Entry<O>>
    const backend: Backend

    /** The backend's colours are exactly the listed ones, and every listed one has an owner. */
    ghost predicate Valid()
      reads this, backend
    {
      && backend.live == Colors(alloced)
      && OwnersDistinct(alloced) && forall e <- alloced :: e.owners != []
    }

    constructor (backend: Backend)
      requires backend.live == multiset{}
      ensures Valid() && this.backend == backend && alloced == []
    {
      this.backend := backend;
      alloced := [];
    }

    static method PaletteToList(c: O, palette: seq<Rgb>) returns (list: seq<Entry<O>>)
      ensures list == PaletteList(c, palette)
    {
      list := [];
      for i := 0 to |palette|
        invariant |list| == i && forall k :: 0 <= k < i ==> list[k] == PaletteList(c, palette)[k]
      {
        list := list + [Entry(palette[i], 0, 0, [c])];
      }
    }

    static method CompareList(base: seq<Entry<O>>, comp: seq<Entry<O>>)
      returns (differ: seq<Entry<O>>, equal: seq<Entry<O>>)
      ensures differ == Common(base, comp, false) && equal == Common(base, comp, true)
    {
      differ, equal := [], [];
      for i := 0 to |comp|
        invariant differ == Common(base, comp[..i], false) && equal == Common(base, comp[..i], true)
      {
        var b := 0;
        while b < |base| && comp[i].rgb != base[b].rgb
          invariant 0 <= b <= |base| && forall k :: 0 <= k < b ==> base[k].rgb != comp[i].rgb
        {
          b := b + 1;
        }
        assert comp[..i + 1][..i] == comp[..i];
        if b < |base| {
          assert HasRgb(base, comp[i].rgb);
          equal := equal + [comp[i]];
        } else {
          differ := differ + [comp[i]];
        }
      }
      assert comp[..|comp|] == comp;
    }

    /** Asks for every colour; when one is refused, gives back those already got. */
    method AllocNewColors(list: seq<Entry<O>>) returns (ok: bool, filled: seq<Entry<O>>)
      modifies backend
      ensures ok <==> AllGiven(backend.answers, old(backend.calls), |list|)
      ensures ok ==>
        && filled == Filled(list, backend.answers, old(backend.calls))
        && backend.live == old(backend.live) + Colors(filled)
      ensures !ok ==> backend.live == old(backend.live)
    {
      hide Colors;
      filled := list;
      ghost var k, live := backend.calls, backend.live;
      var i := 0;
      NoColors(list);
      while i < |list|
        invariant 0 <= i <= |list| && |filled| == |list| && backend.calls == k + i
        invariant AllGiven(backend.answers, k, i)
        invariant forall j :: i <= j < |list| ==> filled[j] == list[j]
        invariant filled[..i] == Filled(list[..i], backend.answers, k)
        invariant backend.live == live + Colors(filled[..i])
      {
        var r := backend.AllocColor(filled[i].rgb);
        if r.Refused? {
          FreeColors(filled[..i], live);
          return false, filled;
        }
        ghost var done := filled[..i];
        filled := filled[i := filled[i].(pixel := r.pixel, data := r.data)];
        assert filled[..i + 1] == done + [filled[i]];
        ColorsAfter(live, done, filled[i]);
        i := i + 1;
      }
      assert filled[..|list|] == filled && list[..|list|] == list;
      return true, filled;
    }

    /** Gives colours back to the backend. */
    method FreeColors(list: seq<Entry<O>>, ghost rest: multiset<Color>)
      requires backend.live == rest + Colors(list)
      modifies backend
      ensures backend.live == rest
    {
      hide Colors;
      var i := 0;
      assert list[0..] == list;
      NoColors(list);
      while i < |list|
        invariant 0 <= i <= |list| && backend.live == rest + Colors(list[i..])
      {
        ColorsBefore(rest, list, i);
        backend.FreeColor(list[i].rgb, list[i].pixel);
        i := i + 1;
      }
    }

    static method RemoveOwnerFromList(list: seq<Entry<O>>, c: O) returns (r: seq<Entry<O>>)
      ensures r == RemoveOwner(list, c)
    {
      r := list;
      for i := 0 to |list|
        invariant |r| == |list| && (forall k :: 0 <= k < i ==>
          r[k] == RemoveOwner(list, c)[k]) && forall k :: i <= k < |r| ==> r[k] == list[k]
      {
        r := r[i := r[i].(owners := OwnerRemove(r[i].owners, c))];
      }
    }

    static method AddOwnerFromOther(dest: seq<Entry<O>>, src: seq<Entry<O>>) returns (r: seq<Entry<O>>)
      requires forall e <- src :: e.owners != []
      ensures r == AddFrom(dest, src)
    {
      r := dest;
      for i := 0 to |src|
        invariant r == AddFrom(dest, src[..i])
      {
        var j := 0;
        while j < |r| && src[i].rgb != r[j].rgb
          invariant 0 <= j <= |r| && forall k :: 0 <= k < j ==> r[k].rgb != src[i].rgb
        {
          j := j + 1;
        }
        AddOneAt(r, src[i].rgb, src[i].owners[0], j);
        assert src[..i + 1][..i] == src[..i];
        if j < |r| {
          r := r[j := r[j].(owners := OwnerAdd(r[j].owners, src[i].owners[0]))];
        }
      }
      assert src[..|src|] == src;
    }

    static method Select(list: seq<Entry<O>>, has: bool) returns (r: seq<Entry<O>>)
      ensures r == Owned(list, has)
    {
      r := [];
      for i := 0 to |list|
        invariant r == Owned(list[..i], has)
      {
        assert list[..i + 1][..i] == list[..i];
        if (list[i].owners != []) == has {
          r := r + [list[i]];
        }
      }
      assert list[..|list|] == list;
    }

    static method FillPixelReturn(dest: seq<Entry<O>>, src: seq<Entry<O>>, c: O) returns (col: seq<int>)
      ensures col == Pixels(dest, src, c)
    {
      col := [];
      for i := 0 to |src|
        invariant col == Pixels(dest, src[..i], c)
      {
        var j := 0;
        while j < |dest| && !(c in dest[j].owners && src[i].rgb == dest[j].rgb)
          invariant 0 <= j <= |dest| && PixelOf(dest, src[i].rgb, c) == PixelOf(dest[j..], src[i].rgb, c)
        {
          j := j + 1;
        }
        assert src[..i + 1][..i] == src[..i];
        if j < |dest| {
          col := col + [dest[j].pixel];
        }
      }
      assert src[..|src|] == src;
    }

    /** Replaces the caller's palette; on failure nothing changes. */
    method AllocColors(c: O, palette: seq<Rgb>) returns (ok: bool, col: seq<int>)
      requires Valid()
      modifies this, backend
      ensures Valid()
      ensures ok <==> AllGiven(backend.answers, old(backend.calls), |Wanted(old(alloced), c, palette)|)
      ensures !ok ==> alloced == old(alloced) && backend.live == old(backend.live)
      ensures ok ==> forall o :: o != c ==> Holdings(alloced, o) == Holdings(old(alloced), o)
      ensures ok ==> forall rgb :: Owns(alloced, c, rgb) <==> rgb in palette
      ensures ok ==> |col| == |palette| && forall k :: 0 <= k < |palette| ==>
        [col[k]] == PixelOf(alloced, palette[k], c)
    {
      hide Colors, Holdings, Owns, OwnersDistinct, Common, AddFrom, RemoveOwner, Owned, Pixels;
      var list := alloced;
      var wish := PaletteToList(c, palette);
      var toAlloc, noAlloc := CompareList(list, wish);
      var got, added := AllocNewColors(toAlloc);
      if !got {
        return false, [];
      }
      PaletteEntries(list, c, palette, true);
      PaletteEntries(list, c, palette, false);
      RequestMeans(list, c, palette, added);
      var all := RemoveOwnerFromList(list, c);
      all := AddOwnerFromOther(all, noAlloc);
      all := all + added;
      var owned := Select(all, true);
      col := FillPixelReturn(owned, wish, c);
      PixelsLineUp(owned, wish, c);
      var unowned := Select(all, false);
      FreeColors(unowned, Colors(owned));
      alloced := owned;
      return true, col;
    }
  }

  lemma NoColors<O>(list: seq<Entry<O>>)
    ensures Colors(list[..0]) == multiset{} && Colors(list[|list|..]) == multiset{}
  {}

  lemma ColorsAfter<O>(live: multiset<Color>, done: seq<Entry<O>>, e: Entry<O>)
    ensures live + Colors(done) + multiset{Color(e.rgb, e.pixel)} == live + Colors(done + [e])
  {
    ColorsAppend(done, [e]);
    assert ColorSeq([e]) == [Color(e.rgb, e.pixel)];
  }

  lemma ColorsBefore<O>(rest: multiset<Color>, list: seq<Entry<O>>, i: nat)
    requires i < |list|
    ensures rest + Colors(list[i..]) - multiset{Color(list[i].rgb, list[i].pixel)} == rest + Colors(list[i + 1..])
  {
    assert list[i..] == [list[i]] + list[i + 1..];
    ColorsAppend([list[i]], list[i + 1..]);
    assert ColorSeq([list[i]]) == [Color(list[i].rgb, list[i].pixel)];
  }

  lemma {:induction false} AddOneAt<O>(list: seq<Entry<O>>, rgb: Rgb, c: O, j: nat)
    requires j <= |list| && forall k :: 0 <= k < j ==> list[k].rgb != rgb
    ensures j == |list| ==> AddOne(list, rgb, c) == list
    ensures j < |list| && list[j].rgb == rgb ==>
      AddOne(list, rgb, c) == list[j := list[j].(owners := OwnerAdd(list[j].owners, c))]
  {
    if j > 0 {
      AddOneAt(list[1..], rgb, c, j - 1);
    }
  }
}
