/**
 * The lists of the colour allocator: colours with the owners that share them,
 * and what the list helpers do to them.
 */
module ColorLists {
  datatype Rgb = Rgb(red: nat, green: nat, blue: nat)

  /** A colour asked for, the pixel it was given, and who owns it. */
  datatype Entry<O> = Entry(rgb: Rgb, pixel: int, data: int, owners: seq<O>)

  /** A colour as the backend knows it. */
  datatype Color = Color(rgb: Rgb, pixel: int)

  // ---------------------------------------------------------------- owners

  function OwnerAdd<O(==)>(owners: seq<O>, c: O): seq<O> {
    if c in owners then owners else owners + [c]
  }

  /** Drops the first occurrence. */
  function OwnerRemove<O(==)>(owners: seq<O>, c: O): seq<O> {
    if owners == [] then []
    else if owners[0] == c then owners[1..]
    else [owners[0]] + OwnerRemove(owners[1..], c)
  }

  predicate Distinct<O(==)>(owners: seq<O>) {
    forall i, j :: 0 <= i < j < |owners| ==> owners[i] != owners[j]
  }

  lemma {:induction false} OwnerRemoved<O>(owners: seq<O>, c: O, o: O)
    requires Distinct(owners)
    ensures Distinct(OwnerRemove(owners, c))
    ensures o in OwnerRemove(owners, c) <==> o in owners && o != c
  {
    if owners != [] && owners[0] != c {
      OwnerRemoved(owners[1..], c, o);
      OwnerRemoved(owners[1..], c, owners[0]);
    }
  }

  // ---------------------------------------------------------------- lists

  predicate HasRgb<O>(list: seq<Entry<O>>, rgb: Rgb) {
    exists i :: 0 <= i < |list| && list[i].rgb == rgb
  }

  function PaletteList<O>(c: O, palette: seq<Rgb>): (list: seq<Entry<O>>)
    ensures |list| == |palette|
  {
    seq(|palette|, i requires 0 <= i < |palette| => Entry(palette[i], 0, 0, [c]))
  }

  /** The entries of comp whose colour base has, or has not. */
  function Common<O>(base: seq<Entry<O>>, comp: seq<Entry<O>>, has: bool): seq<Entry<O>> {
    if comp == [] then []
    else
      var n := |comp| - 1;
      Common(base, comp[..n], has) + if HasRgb(base, comp[n].rgb) == has then [comp[n]] else []
  }

  function RemoveOwner<O(==)>(list: seq<Entry<O>>, c: O): (r: seq<Entry<O>>)
    ensures |r| == |list|
  {
    seq(|list|, i requires 0 <= i < |list| => list[i].(owners := OwnerRemove(list[i].owners, c)))
  }

  /** Adds an owner to the first entry of that colour. */
  function AddOne<O(==)>(list: seq<Entry<O>>, rgb: Rgb, c: O): (r: seq<Entry<O>>)
    ensures |r| == |list|
  {
    if list == [] then []
    else if list[0].rgb == rgb then [list[0].(owners := OwnerAdd(list[0].owners, c))] + list[1..]
    else [list[0]] + AddOne(list[1..], rgb, c)
  }

  function AddFrom<O(==)>(list: seq<Entry<O>>, src: seq<Entry<O>>): (r: seq<Entry<O>>)
    requires forall e <- src :: e.owners != []
    ensures |r| == |list|
  {
    if src == [] then list
    else
      var e := src[|src| - 1];
      AddOne(AddFrom(list, src[..|src| - 1]), e.rgb, e.owners[0])
  }

  /** The entries that still have an owner, or those that have none left. */
  function Owned<O>(list: seq<Entry<O>>, has: bool): seq<Entry<O>> {
    if list == [] then []
    else
      var n := |list| - 1;
      Owned(list[..n], has) + if (list[n].owners != []) == has then [list[n]] else []
  }

  /** The pixel of the first entry of that colour that c owns. */
  function PixelOf<O(==)>(list: seq<Entry<O>>, rgb: Rgb, c: O): seq<int> {
    if list == [] then []
    else if list[0].rgb == rgb && c in list[0].owners then [list[0].pixel]
    else PixelOf(list[1..], rgb, c)
  }

  /** The pixels found for the entries of src; one that is not found is skipped without leaving a hole. */
  function Pixels<O(==)>(list: seq<Entry<O>>, src: seq<Entry<O>>, c: O): seq<int> {
    if src == [] then []
    else
      var n := |src| - 1;
      Pixels(list, src[..n], c) + PixelOf(list, src[n].rgb, c)
  }

  // ---------------------------------------------------------------- what the lists mean

  function ColorSeq<O>(list: seq<Entry<O>>): (s: seq<Color>)
    ensures |s| == |list|
  {
    seq(|list|, i requires 0 <= i < |list| => Color(list[i].rgb, list[i].pixel))
  }

  function Colors<O>(list: seq<Entry<O>>): multiset<Color> {
    multiset(ColorSeq(list))
  }

  /** What one owner holds, in order. */
  function Holdings<O(==)>(list: seq<Entry<O>>, o: O): seq<Color> {
    if list == [] then []
    else
      var n := |list| - 1;
      Holdings(list[..n], o) + if o in list[n].owners then [Color(list[n].rgb, list[n].pixel)] else []
  }

  predicate Owns<O(==)>(list: seq<Entry<O>>, o: O, rgb: Rgb) {
    exists i :: 0 <= i < |list| && list[i].rgb == rgb && o in list[i].owners
  }

  predicate OwnersDistinct<O(==)>(list: seq<Entry<O>>) {
    forall i :: 0 <= i < |list| ==> Distinct(list[i].owners)
  }

  lemma ColorsAppend<O>(a: seq<Entry<O>>, b: seq<Entry<O>>)
    ensures Colors(a + b) == Colors(a) + Colors(b)
  {
    assert ColorSeq(a + b) == ColorSeq(a) + ColorSeq(b);
  }

  lemma {:induction false} HoldingsAppend<O>(a: seq<Entry<O>>, b: seq<Entry<O>>, o: O)
    ensures Holdings(a + b, o) == Holdings(a, o) + Holdings(b, o)
  {
    if b == [] {
      assert a + b == a;
    } else {
      var n := |b| - 1;
      HoldingsAppend(a, b[..n], o);
      assert (a + b)[..|a| + n] == a + b[..n];
    }
  }

  /** Changing owners changes no colour. */
  ghost predicate SameColors<O>(a: seq<Entry<O>>, b: seq<Entry<O>>) {
    |a| == |b| && forall i :: 0 <= i < |a| ==> a[i].rgb == b[i].rgb && a[i].pixel == b[i].pixel
  }

  lemma SameColorsColors<O>(a: seq<Entry<O>>, b: seq<Entry<O>>)
    requires SameColors(a, b)
    ensures Colors(a) == Colors(b)
  {
    assert ColorSeq(a) == ColorSeq(b);
  }

  lemma {:induction false} SameHoldings<O>(a: seq<Entry<O>>, b: seq<Entry<O>>, o: O)
    requires SameColors(a, b)
    requires forall i :: 0 <= i < |a| ==> (o in a[i].owners <==> o in b[i].owners)
    ensures Holdings(a, o) == Holdings(b, o)
  {
    if a != [] {
      SameHoldings(a[..|a| - 1], b[..|b| - 1], o);
    }
  }

  lemma {:induction false} NoHoldings<O>(a: seq<Entry<O>>, o: O)
    requires forall i :: 0 <= i < |a| ==> o !in a[i].owners
    ensures Holdings(a, o) == []
  {
    if a != [] {
      NoHoldings(a[..|a| - 1], o);
    }
  }

  // ---------------------------------------------------------------- the steps

  lemma RemoveOwnerMeans<O>(list: seq<Entry<O>>, c: O, o: O)
    requires OwnersDistinct(list)
    ensures SameColors(list, RemoveOwner(list, c)) && OwnersDistinct(RemoveOwner(list, c))
    ensures o != c ==> Holdings(RemoveOwner(list, c), o) == Holdings(list, o)
    ensures forall i :: 0 <= i < |list| ==> c !in RemoveOwner(list, c)[i].owners
  {
    var r := RemoveOwner(list, c);
    hide Distinct;
    assert forall i :: 0 <= i < |list| ==> r[i] == list[i].(owners := OwnerRemove(list[i].owners, c));
    hide RemoveOwner, OwnerRemove, Holdings;
    forall i | 0 <= i < |list| ensures Distinct(r[i].owners) && c !in r[i].owners
      && (o != c ==> (o in r[i].owners <==> o in list[i].owners))
    {
      OwnerRemoved(list[i].owners, c, o);
      OwnerRemoved(list[i].owners, c, c);
    }
    if o != c {
      SameHoldings(r, list, o);
    }
  }

  lemma {:induction false} AddOneMeans<O>(list: seq<Entry<O>>, rgb: Rgb, c: O, i: nat)
    requires OwnersDistinct(list) && i < |list|
    ensures var r := AddOne(list, rgb, c);
      && r[i].rgb == list[i].rgb && r[i].pixel == list[i].pixel && Distinct(r[i].owners)
      && (forall o :: o != c ==> (o in r[i].owners <==> o in list[i].owners))
      && (c in list[i].owners ==> c in r[i].owners)
      && (c in r[i].owners ==> c in list[i].owners || list[i].rgb == rgb)
  {
    if list[0].rgb != rgb && i > 0 {
      AddOneMeans(list[1..], rgb, c, i - 1);
    }
  }

  /** The owner goes to the first entry of its colour, behind the owners that are there, and nothing else changes. */
  lemma {:induction false} AddOneFirst<O>(list: seq<Entry<O>>, rgb: Rgb, c: O, i: nat)
    requires i < |list|
    ensures AddOne(list, rgb, c)[i] ==
      if list[i].rgb == rgb && !HasRgb(list[..i], rgb) && c !in list[i].owners
      then list[i].(owners := list[i].owners + [c]) else list[i]
  {
    if list[0].rgb == rgb {
      assert i > 0 ==> list[..i][0].rgb == rgb;
    } else if i > 0 {
      AddOneFirst(list[1..], rgb, c, i - 1);
      HasRgbTail(list[..i], rgb);
      assert list[..i][1..] == list[1..][..i - 1];
    }
  }

  lemma HasRgbTail<O>(list: seq<Entry<O>>, rgb: Rgb)
    requires list != [] && list[0].rgb != rgb
    ensures HasRgb(list, rgb) <==> HasRgb(list[1..], rgb)
  {
    if HasRgb(list, rgb) {
      var i :| 0 <= i < |list| && list[i].rgb == rgb;
      assert list[1..][i - 1].rgb == rgb;
    }
    if HasRgb(list[1..], rgb) {
      var i :| 0 <= i < |list| - 1 && list[1..][i].rgb == rgb;
      assert list[i + 1].rgb == rgb;
    }
  }

  lemma {:induction false} AddOneOwns<O>(list: seq<Entry<O>>, rgb: Rgb, c: O)
    requires HasRgb(list, rgb)
    ensures Owns(AddOne(list, rgb, c), c, rgb)
  {
    var r := AddOne(list, rgb, c);
    if list[0].rgb == rgb {
      assert r[0].rgb == rgb && c in r[0].owners;
    } else {
      var i :| 0 <= i < |list| && list[i].rgb == rgb;
      assert list[1..][i - 1].rgb == rgb;
      AddOneOwns(list[1..], rgb, c);
      var j :| 0 <= j < |r| - 1 && r[1..][j].rgb == rgb && c in r[1..][j].owners;
      assert r[j + 1].rgb == rgb;
    }
  }

  /** Adding one owner from a list of colours that are all present: it then owns those and what it had. */
  lemma {:induction false} AddFromMeans<O>(list: seq<Entry<O>>, src: seq<Entry<O>>, c: O)
    requires OwnersDistinct(list)
    requires forall e <- src :: e.owners == [c] && HasRgb(list, e.rgb)
    ensures var r := AddFrom(list, src);
      && SameColors(list, r) && OwnersDistinct(r)
      && (forall i, o :: 0 <= i < |r| && o != c ==> (o in r[i].owners <==> o in list[i].owners))
      && (forall rgb :: Owns(r, c, rgb) <==> Owns(list, c, rgb) || HasRgb(src, rgb))
  {
    if src != [] {
      var n := |src| - 1;
      AddFromMeans(list, src[..n], c);
      var m, r, e := AddFrom(list, src[..n]), AddFrom(list, src), src[n];
      assert e in src;
      forall i | 0 <= i < |m| ensures
        && r[i].rgb == m[i].rgb && r[i].pixel == m[i].pixel && Distinct(r[i].owners)
        && (forall o :: o != c ==> (o in r[i].owners <==> o in m[i].owners))
        && (c in m[i].owners ==> c in r[i].owners)
        && (c in r[i].owners ==> c in m[i].owners || m[i].rgb == e.rgb)
      {
        AddOneMeans(m, e.rgb, c, i);
      }
      SameHasRgb(list, m, e.rgb);
      AddOneOwns(m, e.rgb, c);
      forall rgb ensures Owns(r, c, rgb) <==> Owns(list, c, rgb) || HasRgb(src, rgb) {
        HasRgbSnoc(src, rgb);
        OwnsStep(m, r, c, e.rgb, rgb);
      }
    }
  }

  lemma OwnsStep<O>(m: seq<Entry<O>>, r: seq<Entry<O>>, c: O, added: Rgb, rgb: Rgb)
    requires SameColors(m, r) && Owns(r, c, added)
    requires forall i :: 0 <= i < |m| ==> (c in m[i].owners ==> c in r[i].owners) && (c in r[i].owners ==>
      c in m[i].owners || m[i].rgb == added)
    ensures Owns(r, c, rgb) <==> Owns(m, c, rgb) || rgb == added
  {
    if Owns(m, c, rgb) {
      var i :| 0 <= i < |m| && m[i].rgb == rgb && c in m[i].owners;
      assert r[i].rgb == rgb && c in r[i].owners;
    }
    if Owns(r, c, rgb) {
      var i :| 0 <= i < |r| && r[i].rgb == rgb && c in r[i].owners;
      assert m[i].rgb == rgb;
    }
  }

  lemma SameHasRgb<O>(a: seq<Entry<O>>, b: seq<Entry<O>>, rgb: Rgb)
    requires SameColors(a, b)
    ensures HasRgb(a, rgb) == HasRgb(b, rgb)
  {
    if HasRgb(a, rgb) {
      var i :| 0 <= i < |a| && a[i].rgb == rgb;
      assert b[i].rgb == rgb;
    }
    if HasRgb(b, rgb) {
      var i :| 0 <= i < |b| && b[i].rgb == rgb;
      assert a[i].rgb == rgb;
    }
  }

  lemma HasRgbSnoc<O>(src: seq<Entry<O>>, rgb: Rgb)
    requires src != []
    ensures HasRgb(src, rgb) <==> HasRgb(src[..|src| - 1], rgb) || src[|src| - 1].rgb == rgb
  {
    var t := src[..|src| - 1];
    if HasRgb(src, rgb) {
      var i :| 0 <= i < |src| && src[i].rgb == rgb;
      assert i < |t| ==> t[i].rgb == rgb;
    }
    if HasRgb(t, rgb) {
      var i :| 0 <= i < |t| && t[i].rgb == rgb;
      assert src[i].rgb == rgb;
    }
  }

  /** Splitting off the ownerless entries splits the colours. */
  lemma {:induction false} OwnedColors<O>(list: seq<Entry<O>>)
    ensures Colors(Owned(list, true)) + Colors(Owned(list, false)) == Colors(list)
  {
    if list != [] {
      var n := |list| - 1;
      var a, b, e := Owned(list[..n], true), Owned(list[..n], false), list[n];
      OwnedColors(list[..n]);
      assert list[..n] + [e] == list;
      assert Owned(list, true) == (if e.owners != [] then a + [e] else a);
      assert Owned(list, false) == (if e.owners != [] then b else b + [e]);
      ColorsAppend(list[..n], [e]);
      ColorsAppend(a, [e]);
      ColorsAppend(b, [e]);
      hide Colors, Owned;
      MoveOut(Colors(a), Colors(b), Colors([e]));
    }
  }

  lemma MoveOut(a: multiset<Color>, b: multiset<Color>, x: multiset<Color>)
    ensures (a + x) + b == (a + b) + x && a + (b + x) == (a + b) + x
  {}

  /** It takes nothing from any owner. */
  lemma {:induction false} OwnedMeans<O>(list: seq<Entry<O>>, o: O)
    ensures Holdings(Owned(list, true), o) == Holdings(list, o)
    ensures forall e <- Owned(list, true) :: e in list && e.owners != []
  {
    if list != [] {
      var n := |list| - 1;
      var a, e := Owned(list[..n], true), list[n];
      OwnedMeans(list[..n], o);
      if e.owners != [] {
        HoldingsAppend(a, [e], o);
      } else {
        assert a + [] == a;
      }
      HoldingsOne(e, o);
    }
  }

  lemma HoldingsOne<O>(e: Entry<O>, o: O)
    ensures Holdings([e], o) == if o in e.owners then [Color(e.rgb, e.pixel)] else []
  {
    assert [e][..0] == [];
  }

  lemma OwnedOwns<O>(list: seq<Entry<O>>, o: O, rgb: Rgb)
    ensures Owns(Owned(list, true), o, rgb) <==> Owns(list, o, rgb)
  {
    OwnsHolds(list, o, rgb);
    OwnsHolds(Owned(list, true), o, rgb);
    OwnedMeans(list, o);
  }

  /** Owning a colour is having it among one's holdings. */
  lemma {:induction false} OwnsHolds<O>(list: seq<Entry<O>>, o: O, rgb: Rgb)
    ensures Owns(list, o, rgb) <==> exists k :: 0 <= k < |Holdings(list, o)| && Holdings(list, o)[k].rgb == rgb
  {
    if list != [] {
      var n := |list| - 1;
      OwnsHolds(list[..n], o, rgb);
      var h := Holdings(list[..n], o);
      if Owns(list, o, rgb) {
        var i :| 0 <= i < |list| && list[i].rgb == rgb && o in list[i].owners;
        if i < n {
          assert list[..n][i].rgb == rgb;
          var k :| 0 <= k < |h| && h[k].rgb == rgb;
          assert Holdings(list, o)[k] == h[k];
        } else {
          assert Holdings(list, o)[|h|].rgb == rgb;
        }
      }
      if k :| 0 <= k < |Holdings(list, o)| && Holdings(list, o)[k].rgb == rgb {
        if k < |h| {
          assert h[k].rgb == rgb;
          var i :| 0 <= i < n && list[..n][i].rgb == rgb && o in list[..n][i].owners;
          assert list[i].rgb == rgb;
        } else {
          assert list[n].rgb == rgb;
        }
      }
    }
  }

  /** Comparing keeps the order of the list. */
  lemma {:induction false} CommonJoins<O>(base: seq<Entry<O>>, a: seq<Entry<O>>, b: seq<Entry<O>>, has: bool)
    ensures Common(base, a + b, has) == Common(base, a, has) + Common(base, b, has)
  {
    hide HasRgb;
    if b == [] {
      assert a + b == a;
    } else {
      var n := |b| - 1;
      CommonJoins(base, a, b[..n], has);
      assert (a + b)[..|a| + n] == a + b[..n] && (a + b)[|a| + n] == b[n];
    }
  }

  /** Comparing splits a list in two by what the other list has. */
  lemma {:induction false} CommonMeans<O>(base: seq<Entry<O>>, comp: seq<Entry<O>>, has: bool)
    ensures forall e <- Common(base, comp, has) :: e in comp && HasRgb(base, e.rgb) == has
    ensures forall e <- comp :: HasRgb(base, e.rgb) == has ==> e in Common(base, comp, has)
  {
    if comp != [] {
      CommonMeans(base, comp[..|comp| - 1], has);
    }
  }

  predicate FirstOwned<O(==)>(list: seq<Entry<O>>, rgb: Rgb, c: O, i: nat) {
    && i < |list| && list[i].rgb == rgb && c in list[i].owners
    && forall j :: 0 <= j < i ==> list[j].rgb != rgb || c !in list[j].owners
  }

  lemma FirstOwnedTail<O>(list: seq<Entry<O>>, rgb: Rgb, c: O, i: nat)
    requires list != [] && (list[0].rgb != rgb || c !in list[0].owners) && FirstOwned(list[1..], rgb, c, i)
    ensures FirstOwned(list, rgb, c, i + 1) && list[1..][i] == list[i + 1]
  {
    assert forall k :: 1 <= k < i + 1 ==> list[k] == list[1..][k - 1];
  }

  /** The pixel is that of the first entry of the colour that c owns. */
  lemma {:induction false} PixelFound<O>(list: seq<Entry<O>>, rgb: Rgb, c: O) returns (i: nat)
    requires Owns(list, c, rgb)
    ensures FirstOwned(list, rgb, c, i) && PixelOf(list, rgb, c) == [list[i].pixel]
  {
    if list[0].rgb == rgb && c in list[0].owners {
      i := 0;
    } else {
      var j :| 0 <= j < |list| && list[j].rgb == rgb && c in list[j].owners;
      assert list[1..][j - 1].rgb == rgb;
      i := PixelFound(list[1..], rgb, c);
      FirstOwnedTail(list, rgb, c, i);
      i := i + 1;
    }
  }

  /** When every colour is there, the pixels line up with the list asked for. */
  lemma {:induction false} PixelsLineUp<O>(list: seq<Entry<O>>, src: seq<Entry<O>>, c: O)
    requires forall e <- src :: Owns(list, c, e.rgb)
    ensures |Pixels(list, src, c)| == |src|
    ensures forall k :: 0 <= k < |src| ==> [Pixels(list, src, c)[k]] == PixelOf(list, src[k].rgb, c)
  {
    if src != [] {
      var n := |src| - 1;
      var before, last := Pixels(list, src[..n], c), PixelOf(list, src[n].rgb, c);
      PixelsLineUp(list, src[..n], c);
      assert src[n] in src;
      var _ := PixelFound(list, src[n].rgb, c);
      assert Pixels(list, src, c) == before + last;
      hide Pixels, PixelOf, Owns;
      forall k | 0 <= k < |src| ensures [(before + last)[k]] == PixelOf(list, src[k].rgb, c) {
        if k < n {
          assert src[..n][k] == src[k] && (before + last)[k] == before[k];
        }
      }
    }
  }
}
