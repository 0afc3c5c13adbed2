/**
 * The group code of Commodore disks: four bytes become eight 5-bit codes
 * packed into five bytes.
 */
module GcrCode {
  type Byte = bv8

  // ---------------------------------------------------------------- one group

  function ToGcr(n: Byte): Byte {
    if n == 0 then 0x0a else if n == 1 then 0x0b else if n == 2 then 0x12 else if n == 3 then 0x13
    else if n == 4 then 0x0e else if n == 5 then 0x0f else if n == 6 then 0x16 else if n == 7 then 0x17
    else if n == 8 then 0x09 else if n == 9 then 0x19 else if n == 10 then 0x1a else if n == 11 then 0x1b
    else if n == 12 then 0x0d else if n == 13 then 0x1d else if n == 14 then 0x1e else 0x15
  }

  /** The inverse table; the sixteen codes that no nibble has read as 0. */
  function FromGcr(c: Byte): Byte {
    if c == 0x09 then 8 else if c == 0x0b then 1 else if c == 0x0d then 12 else if c == 0x0e then 4
    else if c == 0x0f then 5 else if c == 0x12 then 2 else if c == 0x13 then 3 else if c == 0x15 then 15
    else if c == 0x16 then 6 else if c == 0x17 then 7 else if c == 0x19 then 9 else if c == 0x1a then 10
    else if c == 0x1b then 11 else if c == 0x1d then 13 else if c == 0x1e then 14 else 0
  }

  predicate Set(n: Byte, mask: Byte) { n & mask != 0 }

  /**
   * The group code bit by bit: the middle one is the nibble's bit 2, the others see to it that
   * neither ones nor zeros gather.
   */
  lemma CodeBits(n: Byte)
    requires n < 16
    ensures var b3, b2, b1, b0 := Set(n, 8), Set(n, 4), Set(n, 2), Set(n, 1);
      && ToGcr(n) < 32 && Set(ToGcr(n), 4) == b2
      && Set(ToGcr(n), 16) == (b1 || (b3 && b0)) && Set(ToGcr(n), 8) == (if b3 then !(b0 && b1 && b2) else !b1)
      && Set(ToGcr(n), 2) == (!b3 || (b1 && !(b2 && b0))) && Set(ToGcr(n), 1) == (if b3 then !b1 || b0 else b0)
  {}

  /** A code that is read as another nibble than 0 is that nibble's. */
  lemma OnlyCodes(c: Byte)
    ensures FromGcr(c) < 16 && (FromGcr(c) != 0 ==> ToGcr(FromGcr(c)) == c)
  {}

  function High(b: Byte): Byte { ToGcr(b >> 4) }
  function Low(b: Byte): Byte { ToGcr(b & 0x0f) }

  // The five bytes that eight 5-bit codes fill, and the codes found in five bytes.
  function Pack0(c0: Byte, c1: Byte): Byte { (c0 << 3) | (c1 >> 2) }
  function Pack1(c1: Byte, c2: Byte, c3: Byte): Byte { (c1 << 6) | (c2 << 1) | (c3 >> 4) }
  function Pack2(c3: Byte, c4: Byte): Byte { (c3 << 4) | (c4 >> 1) }
  function Pack3(c4: Byte, c5: Byte, c6: Byte): Byte { (c4 << 7) | (c5 << 2) | (c6 >> 3) }
  function Pack4(c6: Byte, c7: Byte): Byte { (c6 << 5) | c7 }

  function Unpack0(g0: Byte): Byte { g0 >> 3 }
  function Unpack1(g0: Byte, g1: Byte): Byte { ((g0 << 2) & 0x1f) | (g1 >> 6) }
  function Unpack2(g1: Byte): Byte { (g1 >> 1) & 0x1f }
  function Unpack3(g1: Byte, g2: Byte): Byte { ((g1 << 4) & 0x1f) | (g2 >> 4) }
  function Unpack4(g2: Byte, g3: Byte): Byte { ((g2 << 1) & 0x1f) | (g3 >> 7) }
  function Unpack5(g3: Byte): Byte { (g3 >> 2) & 0x1f }
  function Unpack6(g3: Byte, g4: Byte): Byte { ((g3 << 3) & 0x1f) | (g4 >> 5) }
  function Unpack7(g4: Byte): Byte { g4 & 0x1f }

  function Nibbles(hi: Byte, lo: Byte): Byte { (FromGcr(hi) << 4) | FromGcr(lo) }

  function Encode4(s: seq<Byte>): (g: seq<Byte>)
    requires |s| == 4
    ensures |g| == 5
  {
    [Pack0(High(s[0]), Low(s[0])), Pack1(Low(s[0]), High(s[1]), Low(s[1])), Pack2(Low(s[1]), High(s[2])),
     Pack3(High(s[2]), Low(s[2]), High(s[3])), Pack4(High(s[3]), Low(s[3]))]
  }

  function Decode5(g: seq<Byte>): (s: seq<Byte>)
    requires |g| == 5
    ensures |s| == 4
  {
    [Nibbles(Unpack0(g[0]), Unpack1(g[0], g[1])), Nibbles(Unpack2(g[1]), Unpack3(g[1], g[2])),
     Nibbles(Unpack4(g[2], g[3]), Unpack5(g[3])), Nibbles(Unpack6(g[3], g[4]), Unpack7(g[4]))]
  }

  lemma UnpackPack(c0: Byte, c1: Byte, c2: Byte, c3: Byte, c4: Byte, c5: Byte, c6: Byte, c7: Byte)
    requires c0 < 32 && c1 < 32 && c2 < 32 && c3 < 32 && c4 < 32 && c5 < 32 && c6 < 32 && c7 < 32
    ensures Unpack0(Pack0(c0, c1)) == c0 && Unpack1(Pack0(c0, c1), Pack1(c1, c2, c3)) == c1
    ensures Unpack2(Pack1(c1, c2, c3)) == c2 && Unpack3(Pack1(c1, c2, c3), Pack2(c3, c4)) == c3
    ensures Unpack4(Pack2(c3, c4), Pack3(c4, c5, c6)) == c4 && Unpack5(Pack3(c4, c5, c6)) == c5
    ensures Unpack6(Pack3(c4, c5, c6), Pack4(c6, c7)) == c6 && Unpack7(Pack4(c6, c7)) == c7
  {}

  lemma CodesAreSmall(b: Byte)
    ensures High(b) < 32 && Low(b) < 32
  {}

  lemma CodesRoundTrip(b: Byte)
    ensures Nibbles(High(b), Low(b)) == b
  {}

  lemma DecodeEncode4(s: seq<Byte>)
    requires |s| == 4
    ensures Decode5(Encode4(s)) == s
  {
    hide High, Low, Nibbles, Pack0, Pack1, Pack2, Pack3, Pack4;
    hide Unpack0, Unpack1, Unpack2, Unpack3, Unpack4, Unpack5, Unpack6, Unpack7;
    forall b: Byte ensures High(b) < 32 && Low(b) < 32 && Nibbles(High(b), Low(b)) == b {
      CodesAreSmall(b);
      CodesRoundTrip(b);
    }
    UnpackPack(High(s[0]), Low(s[0]), High(s[1]), Low(s[1]), High(s[2]), Low(s[2]), High(s[3]), Low(s[3]));
  }

  /** An all-ones byte appears exactly for a second byte with low nibble 5 before a third with high nibble E. */
  predicate LooksLikeSync(s: seq<Byte>)
    requires |s| == 4
  {
    s[1] & 0x0f == 5 && s[2] >> 4 == 0xe
  }

  lemma OuterBytesNotOnes(b0: Byte, b1: Byte, b2: Byte, b3: Byte)
    ensures Pack0(High(b0), Low(b0)) != 0xff && Pack1(Low(b0), High(b1), Low(b1)) != 0xff
    ensures Pack3(High(b2), Low(b2), High(b3)) != 0xff && Pack4(High(b3), Low(b3)) != 0xff
  {}

  lemma MiddleByteOnes(b1: Byte, b2: Byte)
    ensures Pack2(Low(b1), High(b2)) == 0xff <==> b1 & 0x0f == 5 && b2 >> 4 == 0xe
  {}

  lemma SyncByteInGroup(s: seq<Byte>)
    requires |s| == 4
    ensures 0xff in Encode4(s) <==> LooksLikeSync(s)
    ensures forall k :: 0 <= k < 5 && Encode4(s)[k] == 0xff ==> k == 2
  {
    hide High, Low, Pack0, Pack1, Pack2, Pack3, Pack4;
    OuterBytesNotOnes(s[0], s[1], s[2], s[3]);
    MiddleByteOnes(s[1], s[2]);
    if LooksLikeSync(s) {
      assert Encode4(s)[2] == 0xff;
    }
  }

  // ---------------------------------------------------------------- the shift accumulators

  /** Makes room for one code in the accumulator and puts it in. */
  function Push(t: bv32, code: Byte): bv32 { (t << 5) | (code as bv32) }

  function Push2(t: bv32, b: Byte): bv32 { Push(Push(t, High(b)), Low(b)) }

  function Take(t: bv32, i: nat): Byte
    requires i < 32
  {
    ((t >> i) & 0xff) as Byte
  }

  ghost function Pushed(s: seq<Byte>, k: nat): bv32
    requires k <= |s|
  {
    if k == 0 then 0 else Push2(Pushed(s, k - 1), s[k - 1])
  }

  lemma TakeTwo(t: bv32, a: Byte, b: Byte)
    requires a < 32 && b < 32
    ensures Take(Push(Push(t, a), b), 2) == Pack0(a, b) && Take(Push(Push(t, a), b), 0) == Pack4(a, b)
  {}

  lemma TakeThree(t: bv32, a: Byte, b: Byte, c: Byte)
    requires a < 32 && b < 32 && c < 32
    ensures Take(Push(Push(Push(t, a), b), c), 4) == Pack1(a, b, c)
    ensures Take(Push(Push(Push(t, a), b), c), 6) == Pack2(a, b)
  {}

  lemma TakeFour(t: bv32, a: Byte, b: Byte, c: Byte, d: Byte)
    requires a < 32 && b < 32 && c < 32 && d < 32
    ensures Take(Push(Push(Push(Push(t, a), b), c), d), 8) == Pack3(a, b, c)
  {}

  /** What the encoder takes from the accumulator after k bytes is byte k - 1 of the group. */
  lemma TakeIsEncoded(s: seq<Byte>, k: nat)
    requires |s| == 4 && 1 <= k <= 4
    ensures Take(Pushed(s, k), 2 * k) == Encode4(s)[k - 1]
    ensures k == 4 ==> Take(Pushed(s, k), 0) == Encode4(s)[4]
  {
    hide High, Low, Push, Take, Pack0, Pack1, Pack2, Pack3, Pack4;
    CodesAreSmall(s[0]);
    CodesAreSmall(s[1]);
    CodesAreSmall(s[2]);
    CodesAreSmall(s[3]);
    PushedStep(s, k - 1);
    if k == 1 {
      TakeTwo(0, High(s[0]), Low(s[0]));
    } else {
      PushedStep(s, k - 2);
      var t := Pushed(s, k - 2);
      if k == 2 {
        TakeThree(Push(t, High(s[0])), Low(s[0]), High(s[1]), Low(s[1]));
      } else if k == 3 {
        TakeThree(Push(t, High(s[1])), Low(s[1]), High(s[2]), Low(s[2]));
      } else {
        TakeFour(t, High(s[2]), Low(s[2]), High(s[3]), Low(s[3]));
        TakeTwo(Push2(t, s[2]), High(s[3]), Low(s[3]));
      }
    }
  }

  lemma PushedStep(s: seq<Byte>, k: nat)
    requires |s| == 4 && k < 4
    ensures Pushed(s, 0) == 0
    ensures Pushed(s, k + 1) == Push2(Pushed(s, k), s[k])
  {}

  /** Fills five bytes of dest from four of source. */
  method Convert4BytesToGcr(source: array<Byte>, sp: nat, dest: array<Byte>, dp: nat)
    requires sp + 4 <= source.Length && dp + 5 <= dest.Length && source != dest
    modifies dest
    ensures dest[..] == old(dest[..dp]) + Encode4(source[sp..sp + 4]) + old(dest[dp + 5..])
  {
    hide Encode4, Push2, Take, Pushed;
    ghost var s := source[sp..sp + 4];
    var tdest: bv32 := 0;
    var i, k := 2, 0;
    PushedStep(s, 0);
    while i < 10
      invariant 0 <= k <= 4 && i == 2 * k + 2
      invariant tdest == Pushed(s, k)
      invariant forall j :: 0 <= j < k ==> dest[dp + j] == Encode4(s)[j]
      invariant dest[..dp] == old(dest[..dp]) && dest[dp + 5..] == old(dest[dp + 5..])
    {
      var b := source[sp + k];
      PushedStep(s, k);
      TakeIsEncoded(s, k + 1);
      tdest := Push2(tdest, b);
      dest[dp + k] := Take(tdest, i);
      i, k := i + 2, k + 1;
    }
    TakeIsEncoded(s, 4);
    dest[dp + 4] := Take(tdest, 0);
    assert dest[dp..dp + 5] == Encode4(s);
    assert dest[..] == dest[..dp] + dest[dp..dp + 5] + dest[dp + 5..];
  }

  /** The decoder's accumulator: the next byte goes in below what is left of the last ones. */
  function Feed(t: bv32, b: Byte, i: nat): bv32
    requires i < 32
  {
    t | ((b as bv32) << i)
  }

  function Next(t: bv32): bv32 { t << 5 }

  function Field(t: bv32): Byte { ((t >> 16) & 0x1f) as Byte }

  function First(b: Byte): bv32 { (b as bv32) << 13 }

  ghost function Fed(g: seq<Byte>, k: nat): bv32
    requires |g| == 5 && k <= 4
  {
    if k == 0 then First(g[0]) else Next(Next(Feed(Fed(g, k - 1), g[k], 2 * k + 3)))
  }

  lemma FirstFields(g0: Byte, g1: Byte)
    ensures var x := Feed(First(g0), g1, 5);
      Field(x) == Unpack0(g0) && Field(Next(x)) == Unpack1(g0, g1) && Next(Next(x)) & 0x7fff == 0
  {}

  lemma SecondFields(g0: Byte, g1: Byte, g2: Byte)
    ensures var x := Feed(Next(Next(Feed(First(g0), g1, 5))), g2, 7);
      Field(x) == Unpack2(g1) && Field(Next(x)) == Unpack3(g1, g2)
  {}

  /** Only what the last byte has left is still above the next one. */
  lemma ThirdFields(t: bv32, g2: Byte, g3: Byte)
    requires t & 0x7fff == 0
    ensures var x := Feed(Next(Next(Feed(t, g2, 7))), g3, 9);
      Field(x) == Unpack4(g2, g3) && Field(Next(x)) == Unpack5(g3)
    ensures Next(Next(Feed(t, g2, 7))) & 0x1ffff == 0
  {}

  lemma FourthFields(t: bv32, g3: Byte, g4: Byte)
    requires t & 0x1ffff == 0
    ensures var x := Feed(Next(Next(Feed(t, g3, 9))), g4, 11);
      Field(x) == Unpack6(g3, g4) && Field(Next(x)) == Unpack7(g4)
  {}

  lemma FedStep(g: seq<Byte>, k: nat)
    requires |g| == 5 && k < 4
    ensures Fed(g, 0) == First(g[0])
    ensures Fed(g, k + 1) == Next(Next(Feed(Fed(g, k), g[k + 1], 2 * k + 5)))
  {
    hide Feed, First, Next;
  }

  lemma FieldIsDecoded(g: seq<Byte>, k: nat)
    requires |g| == 5 && k < 4
    ensures var x := Feed(Fed(g, k), g[k + 1], 2 * k + 5);
      Nibbles(Field(x), Field(Next(x))) == Decode5(g)[k]
  {
    hide Nibbles, Feed, Field, First, Next, Fed;
    hide Unpack0, Unpack1, Unpack2, Unpack3, Unpack4, Unpack5, Unpack6, Unpack7;
    FedStep(g, 0);
    FirstFields(g[0], g[1]);
    if k == 1 {
      SecondFields(g[0], g[1], g[2]);
    } else if k >= 2 {
      FedStep(g, 1);
      ThirdFields(Fed(g, 1), g[2], g[3]);
      if k == 3 {
        FedStep(g, 2);
        FourthFields(Fed(g, 2), g[3], g[4]);
      }
    }
  }

  /** Fills four bytes of dest from the five of a group. */
  method ConvertGcrTo4Bytes(source: seq<Byte>, dest: array<Byte>, dp: nat)
    requires |source| == 5 && dp + 4 <= dest.Length
    modifies dest
    ensures dest[..] == old(dest[..dp]) + Decode5(source) + old(dest[dp + 4..])
  {
    hide Decode5, Nibbles, Feed, Field, First, Next;
    var tdest := First(source[0]);
    var i, k := 5, 0;
    while i < 13
      invariant 0 <= k <= 4 && i == 2 * k + 5
      invariant tdest == Fed(source, k)
      invariant forall j :: 0 <= j < k ==> dest[dp + j] == Decode5(source)[j]
      invariant dest[..dp] == old(dest[..dp]) && dest[dp + 4..] == old(dest[dp + 4..])
    {
      FieldIsDecoded(source, k);
      tdest := Feed(tdest, source[k + 1], i);
      var hi := Field(tdest);
      tdest := Next(tdest);
      dest[dp + k] := Nibbles(hi, Field(tdest));
      tdest := Next(tdest);
      i, k := i + 2, k + 1;
    }
    assert dest[dp..dp + 4] == Decode5(source);
    assert dest[..] == dest[..dp] + dest[dp..dp + 4] + dest[dp + 4..];
  }

  // ---------------------------------------------------------------- whole buffers

  /** The encoding of n groups of four bytes. */
  function EncodeAll(s: seq<Byte>, n: nat): (g: seq<Byte>)
    requires |s| == 4 * n
    ensures |g| == 5 * n
  {
    if n == 0 then [] else EncodeAll(s[..4 * n - 4], n - 1) + Encode4(s[4 * n - 4..])
  }

  function DecodeAll(g: seq<Byte>, n: nat): (s: seq<Byte>)
    requires |g| == 5 * n
    ensures |s| == 4 * n
  {
    if n == 0 then [] else DecodeAll(g[..5 * n - 5], n - 1) + Decode5(g[5 * n - 5..])
  }

  /** Decoding undoes encoding, for any number of groups. */
  lemma {:induction false} DecodeEncodeAll(s: seq<Byte>, n: nat)
    requires |s| == 4 * n
    ensures DecodeAll(EncodeAll(s, n), n) == s
  {
    hide Encode4, Decode5;
    if n > 0 {
      DecodeEncodeAll(s[..4 * n - 4], n - 1);
      DecodeEncode4(s[4 * n - 4..]);
      var g := EncodeAll(s, n);
      assert g[..5 * n - 5] == EncodeAll(s[..4 * n - 4], n - 1) && g[5 * n - 5..] == Encode4(s[4 * n - 4..]);
      assert s[..4 * n - 4] + s[4 * n - 4..] == s;
    }
  }

  function Group(s: seq<Byte>, i: nat): (g: seq<Byte>)
    requires 4 * i + 4 <= |s|
    ensures |g| == 4
  {
    s[4 * i..4 * i + 4]
  }

  /** Group i of the encoding is the code of group i. */
  lemma {:induction false} EncodedGroup(s: seq<Byte>, n: nat, i: nat)
    requires |s| == 4 * n && i < n
    ensures EncodeAll(s, n)[5 * i..5 * i + 5] == Encode4(Group(s, i))
  {
    hide Encode4;
    var t := s[..4 * n - 4];
    if i < n - 1 {
      EncodedGroup(t, n - 1, i);
      assert Group(t, i) == Group(s, i);
      assert EncodeAll(s, n)[5 * i..5 * i + 5] == EncodeAll(t, n - 1)[5 * i..5 * i + 5];
    } else {
      assert Group(s, i) == s[4 * n - 4..];
    }
  }

  lemma {:induction false} DecodedGroup(g: seq<Byte>, n: nat, i: nat)
    requires |g| == 5 * n && i < n
    ensures Group(DecodeAll(g, n), i) == Decode5(g[5 * i..5 * i + 5])
  {
    hide Decode5;
    var t := g[..5 * n - 5];
    if i < n - 1 {
      DecodedGroup(t, n - 1, i);
      assert t[5 * i..5 * i + 5] == g[5 * i..5 * i + 5];
      assert Group(DecodeAll(g, n), i) == Group(DecodeAll(t, n - 1), i);
    } else {
      assert g[5 * i..5 * i + 5] == g[5 * n - 5..];
    }
  }

  /** The aligned all-ones bytes of an encoding are the third bytes of the groups that look like sync. */
  lemma SyncBytes(s: seq<Byte>, n: nat, i: nat, j: nat)
    requires |s| == 4 * n && i < n && j < 5
    ensures EncodeAll(s, n)[5 * i + j] == 0xff <==> j == 2 && LooksLikeSync(Group(s, i))
  {
    hide Encode4, EncodeAll, Group, LooksLikeSync;
    EncodedGroup(s, n, i);
    SyncByteInGroup(Group(s, i));
    assert EncodeAll(s, n)[5 * i + j] == EncodeAll(s, n)[5 * i..5 * i + 5][j];
    if EncodeAll(s, n)[5 * i + j] != 0xff && j == 2 {
      assert forall k :: 0 <= k < 5 ==> Encode4(Group(s, i))[k] != 0xff;
    }
  }

  // ---------------------------------------------------------------- the bit stream

  function BitOf(b: Byte, i: nat): bool
    requires i < 8
  {
    (b >> (7 - i)) & 1 == 1
  }

  /** Bit k of a byte stream, most significant bit first. */
  function Bit(g: seq<Byte>, k: nat): bool
    requires k < 8 * |g|
  {
    BitOf(g[k / 8], k % 8)
  }

  /** The 5-bit code of nibble q of a buffer. */
  function CodeAt(s: seq<Byte>, q: nat): Byte
    requires q < 2 * |s|
  {
    if q % 2 == 0 then High(s[q / 2]) else Low(s[q / 2])
  }

  function CodeBit(c: Byte, i: nat): bool
    requires i < 5
  {
    (c >> (4 - i)) & 1 == 1
  }

  lemma Pack0Bits(a: Byte, b: Byte)
    requires a < 32 && b < 32
    ensures BitOf(Pack0(a, b), 0) == CodeBit(a, 0) && BitOf(Pack0(a, b), 1) == CodeBit(a, 1)
    ensures BitOf(Pack0(a, b), 2) == CodeBit(a, 2) && BitOf(Pack0(a, b), 3) == CodeBit(a, 3)
    ensures BitOf(Pack0(a, b), 4) == CodeBit(a, 4) && BitOf(Pack0(a, b), 5) == CodeBit(b, 0)
    ensures BitOf(Pack0(a, b), 6) == CodeBit(b, 1) && BitOf(Pack0(a, b), 7) == CodeBit(b, 2)
  {}

  lemma Pack1Bits(a: Byte, b: Byte, c: Byte)
    requires a < 32 && b < 32 && c < 32
    ensures BitOf(Pack1(a, b, c), 0) == CodeBit(a, 3) && BitOf(Pack1(a, b, c), 1) == CodeBit(a, 4)
    ensures BitOf(Pack1(a, b, c), 2) == CodeBit(b, 0) && BitOf(Pack1(a, b, c), 3) == CodeBit(b, 1)
    ensures BitOf(Pack1(a, b, c), 4) == CodeBit(b, 2) && BitOf(Pack1(a, b, c), 5) == CodeBit(b, 3)
    ensures BitOf(Pack1(a, b, c), 6) == CodeBit(b, 4) && BitOf(Pack1(a, b, c), 7) == CodeBit(c, 0)
  {}

  lemma Pack2Bits(a: Byte, b: Byte)
    requires a < 32 && b < 32
    ensures BitOf(Pack2(a, b), 0) == CodeBit(a, 1) && BitOf(Pack2(a, b), 1) == CodeBit(a, 2)
    ensures BitOf(Pack2(a, b), 2) == CodeBit(a, 3) && BitOf(Pack2(a, b), 3) == CodeBit(a, 4)
    ensures BitOf(Pack2(a, b), 4) == CodeBit(b, 0) && BitOf(Pack2(a, b), 5) == CodeBit(b, 1)
    ensures BitOf(Pack2(a, b), 6) == CodeBit(b, 2) && BitOf(Pack2(a, b), 7) == CodeBit(b, 3)
  {}

  lemma Pack3Bits(a: Byte, b: Byte, c: Byte)
    requires a < 32 && b < 32 && c < 32
    ensures BitOf(Pack3(a, b, c), 0) == CodeBit(a, 4) && BitOf(Pack3(a, b, c), 1) == CodeBit(b, 0)
    ensures BitOf(Pack3(a, b, c), 2) == CodeBit(b, 1) && BitOf(Pack3(a, b, c), 3) == CodeBit(b, 2)
    ensures BitOf(Pack3(a, b, c), 4) == CodeBit(b, 3) && BitOf(Pack3(a, b, c), 5) == CodeBit(b, 4)
    ensures BitOf(Pack3(a, b, c), 6) == CodeBit(c, 0) && BitOf(Pack3(a, b, c), 7) == CodeBit(c, 1)
  {}

  lemma Pack4Bits(a: Byte, b: Byte)
    requires a < 32 && b < 32
    ensures BitOf(Pack4(a, b), 0) == CodeBit(a, 2) && BitOf(Pack4(a, b), 1) == CodeBit(a, 3)
    ensures BitOf(Pack4(a, b), 2) == CodeBit(a, 4) && BitOf(Pack4(a, b), 3) == CodeBit(b, 0)
    ensures BitOf(Pack4(a, b), 4) == CodeBit(b, 1) && BitOf(Pack4(a, b), 5) == CodeBit(b, 2)
    ensures BitOf(Pack4(a, b), 6) == CodeBit(b, 3) && BitOf(Pack4(a, b), 7) == CodeBit(b, 4)
  {}

  lemma Byte0Bit(s: seq<Byte>, i: nat)
    requires |s| == 4 && i < 8
    ensures BitOf(Encode4(s)[0], i) == CodeBit(CodeAt(s, i / 5), i % 5)
  {
    hide High, Low, Pack0, Pack1, Pack2, Pack3, Pack4, BitOf, CodeBit;
    CodesAreSmall(s[0]);
    Pack0Bits(High(s[0]), Low(s[0]));
  }

  lemma Byte1Bit(s: seq<Byte>, i: nat)
    requires |s| == 4 && i < 8
    ensures BitOf(Encode4(s)[1], i) == CodeBit(CodeAt(s, (8 + i) / 5), (8 + i) % 5)
  {
    hide High, Low, Pack0, Pack1, Pack2, Pack3, Pack4, BitOf, CodeBit;
    CodesAreSmall(s[0]);
    CodesAreSmall(s[1]);
    Pack1Bits(Low(s[0]), High(s[1]), Low(s[1]));
  }

  lemma Byte2Bit(s: seq<Byte>, i: nat)
    requires |s| == 4 && i < 8
    ensures BitOf(Encode4(s)[2], i) == CodeBit(CodeAt(s, (16 + i) / 5), (16 + i) % 5)
  {
    hide High, Low, Pack0, Pack1, Pack2, Pack3, Pack4, BitOf, CodeBit;
    CodesAreSmall(s[1]);
    CodesAreSmall(s[2]);
    Pack2Bits(Low(s[1]), High(s[2]));
  }

  lemma Byte3Bit(s: seq<Byte>, i: nat)
    requires |s| == 4 && i < 8
    ensures BitOf(Encode4(s)[3], i) == CodeBit(CodeAt(s, (24 + i) / 5), (24 + i) % 5)
  {
    hide High, Low, Pack0, Pack1, Pack2, Pack3, Pack4, BitOf, CodeBit;
    CodesAreSmall(s[2]);
    CodesAreSmall(s[3]);
    Pack3Bits(High(s[2]), Low(s[2]), High(s[3]));
  }

  lemma Byte4Bit(s: seq<Byte>, i: nat)
    requires |s| == 4 && i < 8
    ensures BitOf(Encode4(s)[4], i) == CodeBit(CodeAt(s, (32 + i) / 5), (32 + i) % 5)
  {
    hide High, Low, Pack0, Pack1, Pack2, Pack3, Pack4, BitOf, CodeBit;
    CodesAreSmall(s[3]);
    Pack4Bits(High(s[3]), Low(s[3]));
  }

  /** Bit r of code p of a group, where the packing has put it. */
  lemma GroupBit(s: seq<Byte>, p: nat, r: nat)
    requires |s| == 4 && p < 8 && r < 5
    ensures Bit(Encode4(s), 5 * p + r) == CodeBit(CodeAt(s, p), r)
  {
    hide Encode4, CodeAt, BitOf, CodeBit;
    var k := 5 * p + r;
    match k / 8
    case 0 => Byte0Bit(s, k % 8);
    case 1 => Byte1Bit(s, k % 8);
    case 2 => Byte2Bit(s, k % 8);
    case 3 => Byte3Bit(s, k % 8);
    case _ => Byte4Bit(s, k % 8);
  }

  /** The bit stream of an encoding is the stream of its 5-bit codes. */
  lemma CodeStream(s: seq<Byte>, n: nat, q: nat, r: nat)
    requires |s| == 4 * n && q < 8 * n && r < 5
    ensures Bit(EncodeAll(s, n), 5 * q + r) == CodeBit(CodeAt(s, q), r)
  {
    hide Encode4, EncodeAll, BitOf, CodeBit, High, Low;
    var i, p := q / 8, q % 8;
    var g, m := EncodeAll(s, n), 5 * p + r;
    EncodedGroup(s, n, i);
    StreamIndex(q, r);
    assert g[5 * i + m / 8] == g[5 * i..5 * i + 5][m / 8];
    assert Bit(g, 5 * q + r) == Bit(Encode4(Group(s, i)), m);
    hide Bit;
    GroupBit(Group(s, i), p, r);
    GroupCode(s, q);
  }

  lemma StreamIndex(q: nat, r: nat)
    requires r < 5
    ensures var i, m := q / 8, 5 * (q % 8) + r;
      (5 * q + r) / 8 == 5 * i + m / 8 && (5 * q + r) % 8 == m % 8 && m / 8 < 5
  {
    var i, m := q / 8, 5 * (q % 8) + r;
    assert 5 * q + r == 8 * (5 * i) + m;
  }

  lemma GroupCode(s: seq<Byte>, q: nat)
    requires q < 2 * |s| && 4 * (q / 8) + 4 <= |s|
    ensures CodeAt(s, q) == CodeAt(Group(s, q / 8), q % 8)
  {
    hide High, Low;
  }

  lemma CodeShape(b: Byte)
    ensures !(CodeBit(High(b), 0) && CodeBit(High(b), 1) && CodeBit(High(b), 2) && CodeBit(High(b), 3)
      && CodeBit(High(b), 4))
    ensures !(CodeBit(Low(b), 0) && CodeBit(Low(b), 1) && CodeBit(Low(b), 2) && CodeBit(Low(b), 3)
      && CodeBit(Low(b), 4))
    ensures (CodeBit(High(b), 0) || CodeBit(High(b), 1)) && (CodeBit(High(b), 3) || CodeBit(High(b), 4))
    ensures (CodeBit(Low(b), 0) || CodeBit(Low(b), 1)) && (CodeBit(Low(b), 3) || CodeBit(Low(b), 4))
    ensures (CodeBit(High(b), 1) || CodeBit(High(b), 2) || CodeBit(High(b), 3))
    ensures (CodeBit(Low(b), 1) || CodeBit(Low(b), 2) || CodeBit(Low(b), 3))
  {}

  /** No three zero bits in a row anywhere in an encoding. */
  lemma ZeroRuns(s: seq<Byte>, n: nat, k: nat)
    requires |s| == 4 * n && k + 3 <= 40 * n
    ensures Bit(EncodeAll(s, n), k) || Bit(EncodeAll(s, n), k + 1) || Bit(EncodeAll(s, n), k + 2)
  {
    hide EncodeAll, Bit, CodeBit, High, Low;
    var q, r := k / 5, k % 5;
    CodeShape(s[q / 2]);
    CodeStream(s, n, q, r);
    if r <= 2 {
      CodeStream(s, n, q, r + 1);
      CodeStream(s, n, q, r + 2);
    } else {
      CodeShape(s[(q + 1) / 2]);
      CodeStream(s, n, q, 4);
      CodeStream(s, n, q + 1, 0);
      CodeStream(s, n, q + 1, 1);
    }
  }

  /** No nine one bits in a row: any nine contain a whole code. */
  lemma OneRuns(s: seq<Byte>, n: nat, k: nat)
    requires |s| == 4 * n && k + 9 <= 40 * n
    ensures exists j :: k <= j < k + 9 && !Bit(EncodeAll(s, n), j)
  {
    hide EncodeAll, Bit, CodeBit, High, Low;
    var q := (k + 4) / 5;
    CodeShape(s[q / 2]);
    CodeStream(s, n, q, 0);
    CodeStream(s, n, q, 1);
    CodeStream(s, n, q, 2);
    CodeStream(s, n, q, 3);
    CodeStream(s, n, q, 4);
  }
}
