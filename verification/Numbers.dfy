/** Bytes and addresses as numbers: what bit-vector sums, shifts and masks come to. */
module Numbers {
  import opened Isa

  /** A byte as a two's complement number. */
  function Signed(v: bv8): int {
    if Num(v) >= 128 then Num(v) - 256 else Num(v)
  }

  /** A byte as a number. */
  function Num(v: bv8): (n: nat)
    ensures n < 256
  {
    v as int
  }

  function Number(b: bool): nat {
    if b then 1 else 0
  }

  // -------------------------------------------------------------------------
  // Halves of a byte

  lemma Nibbles(v: bv8)
    ensures Num(v & 0xf) == Num(v) % 16 && Num(v >> 4) == Num(v) / 16
  {
    LowNibble(v);
    HighNibble(v);
  }

  lemma LowNibble(v: bv8)
    ensures Num(v & 0xf) == Num(v) % 16
  {}

  lemma HighNibble(v: bv8)
    ensures Num(v >> 4) == Num(v) / 16
  {}

  lemma SmallSum(x: bv8, y: bv8)
    requires x <= 16 && y <= 15
    ensures Num(x + y) == Num(x) + Num(y)
  {}

  lemma Order(x: bv8, y: bv8)
    ensures (x < y) == (Num(x) < Num(y)) && (x == y) == (Num(x) == Num(y))
  {
    Less(x, y);
    Same(x, y);
  }

  lemma Less(x: bv8, y: bv8)
    ensures (x < y) == (Num(x) < Num(y))
  {}

  lemma Same(x: bv8, y: bv8)
    ensures (x == y) == (Num(x) == Num(y))
  {}

  function NibbleSum(x: bv8, y: bv8, carry: bv8): bv8 {
    (x & 0xf) + (y & 0xf) + carry
  }

  function Joined(hi: bv8, lo: bv8): bv8 {
    (hi << 4) | (lo & 0xf)
  }

  lemma NibbleSumIs(x: bv8, y: bv8, carry: bv8)
    requires carry <= 1
    ensures Num(NibbleSum(x, y, carry)) == Num(x) % 16 + Num(y) % 16 + Num(carry)
    ensures NibbleSum(x, y, carry) <= 31
  {
    LowNibble(x);
    LowNibble(y);
    SmallParts(x, y, carry);
    SmallSum((x & 0xf) + carry, y & 0xf);
    SmallSum(x & 0xf, carry);
  }

  lemma SmallParts(x: bv8, y: bv8, carry: bv8)
    requires carry <= 1
    ensures x & 0xf <= 15 && y & 0xf <= 15 && (x & 0xf) + carry <= 16
    ensures NibbleSum(x, y, carry) == (x & 0xf) + carry + (y & 0xf) <= 31
  {}

  lemma JoinedIs(hi: bv8, lo: bv8)
    ensures Num(Joined(hi, lo)) == 16 * (Num(hi) % 16) + Num(lo) % 16
  {
    JoinedParts(hi, lo);
    Nibbles(Joined(hi, lo));
    LowNibble(hi);
    LowNibble(lo);
  }

  lemma JoinedParts(hi: bv8, lo: bv8)
    ensures Joined(hi, lo) & 0xf == lo & 0xf && Joined(hi, lo) >> 4 == hi & 0xf
  {}

  // -------------------------------------------------------------------------
  // Sums and differences of bytes

  function Carry16(b: bool): bv16 {
    if b then 1 else 0
  }

  function Carry8(b: bool): bv8 {
    if b then 1 else 0
  }

  /** The upper half of a sum, with what is carried into it. */
  function HighSum(a: bv8, v: bv8, carry: bool): bv8 {
    NibbleSum(a >> 4, v >> 4, NibbleSum(a, v, Carry8(carry)) >> 4)
  }

  predicate NinthBit(t: bv16) { t > 0xff }

  predicate FifthBit(h: bv8) { h > 0xf }

  lemma TotalParts(a: bv8, v: bv8, carry: bool)
    ensures var l, h := NibbleSum(a, v, Carry8(carry)), HighSum(a, v, carry);
      && Lo(Total(a, v, Carry16(carry))) == Joined(h, l) && (NinthBit(Total(a, v, Carry16(carry))) <==> FifthBit(h))
      && l >> 4 <= 1
  {}

  lemma FifthBitIs(h: bv8)
    requires h <= 31
    ensures Num(h) == Num(h) % 16 + 16 * Number(FifthBit(h))
  {
    Less(0xf, h);
    Less(31, h);
  }

  /** A sum of two bytes and a carry is its low byte and its ninth bit. */
  lemma TotalIs(a: bv8, v: bv8, carry: bool)
    ensures var t := Total(a, v, Carry16(carry));
      Num(Lo(t)) + 256 * Number(NinthBit(t)) == Num(a) + Num(v) + Number(carry)
  {
    var l, h := NibbleSum(a, v, Carry8(carry)), HighSum(a, v, carry);
    TotalParts(a, v, carry);
    CarryIs(carry);
    NibbleSumIs(a, v, Carry8(carry));
    NibbleSumIs(a >> 4, v >> 4, l >> 4);
    FifthBitIs(h);
    JoinedIs(h, l);
    hide Joined, NibbleSum, Total, Lo, Carry8, Carry16, HighSum, NinthBit, FifthBit, Num;
    HighNibbles(a, v, l);
    Sixteens(Num(a));
    Sixteens(Num(v));
    Sixteens(Num(l));
  }

  lemma HighNibbles(a: bv8, v: bv8, l: bv8)
    ensures Num(a >> 4) == Num(a) / 16 && Num(a >> 4) % 16 == Num(a) / 16
    ensures Num(v >> 4) == Num(v) / 16 && Num(v >> 4) % 16 == Num(v) / 16
    ensures Num(l >> 4) == Num(l) / 16
  {
    HighNibble(a);
    HighNibble(v);
    HighNibble(l);
    ByteBound(a);
    ByteBound(v);
  }

  lemma ByteRange(v: bv8)
    ensures 0 <= Num(v) < 256
  {}

  lemma ByteBound(v: bv8)
    ensures 0 <= Num(v) < 256 && Num(v) / 16 % 16 == Num(v) / 16
  {}

  lemma Sixteens(x: int)
    ensures x == 16 * (x / 16) + x % 16
  {}

  lemma CarryIs(carry: bool)
    ensures Num(Carry8(carry)) == Number(carry) && Carry8(carry) <= 1
  {}

  predicate NoBorrow(a: bv8, v: bv8, borrow: bool) {
    a as bv16 >= v as bv16 + Carry16(borrow)
  }

  /** A difference and its borrow. */
  lemma DifferenceIs(a: bv8, v: bv8, borrow: bool)
    ensures var w := Lo(Difference(a, v, Carry16(borrow)));
      Num(w) - 256 * Number(!NoBorrow(a, v, borrow)) == Num(a) - Num(v) - Number(borrow)
    ensures NoBorrow(a, v, borrow) <==> Num(a) >= Num(v) + Number(borrow)
  {
    var w := Lo(Difference(a, v, Carry16(borrow)));
    DifferenceParts(a, v, borrow);
    TotalIs(w, v, borrow);
    hide Total, Difference, Lo, Carry16, NinthBit, NoBorrow, Num;
  }

  /** Adding the subtrahend again gives the minuend, and a carry where there was a borrow. */
  lemma DifferenceParts(a: bv8, v: bv8, borrow: bool)
    ensures var t := Total(Lo(Difference(a, v, Carry16(borrow))), v, Carry16(borrow));
      Lo(t) == a && (NinthBit(t) <==> !NoBorrow(a, v, borrow))
  {
    BorrowIsCarry(Lo(Difference(a, v, Carry16(borrow))), a, v, borrow);
  }

  lemma BorrowIsCarry(w: bv8, a: bv8, v: bv8, borrow: bool)
    requires Lo(Total(w, v, Carry16(borrow))) == a
    ensures NinthBit(Total(w, v, Carry16(borrow))) <==> !NoBorrow(a, v, borrow)
  {}

  function Plus(a: bv8, v: bv8): bv8 { a + v }

  lemma PlusIs(a: bv8, v: bv8)
    ensures Num(Plus(a, v)) == (Num(a) + Num(v)) % 256
  {
    PlusIsTotal(a, v);
    hide Plus, Total, Lo, Carry16, NinthBit, Num;
    TotalIs(a, v, false);
    ByteRange(Plus(a, v));
    ByteRemainder(Num(a) + Num(v), Num(Plus(a, v)), Number(NinthBit(Total(a, v, Carry16(false)))));
  }

  lemma ByteRemainder(n: int, w: int, d: int)
    requires n == w + 256 * d && 0 <= w < 256
    ensures n % 256 == w
  {}

  lemma PlusIsTotal(a: bv8, v: bv8)
    ensures Plus(a, v) == Lo(Total(a, v, Carry16(false)))
  {}

  lemma MinusIs(a: bv8, v: bv8)
    ensures Num(Minus(a, v)) == (Num(a) - Num(v)) % 256
  {
    MinusIsDifference(a, v);
    hide Minus, Difference, Lo, Carry16, NoBorrow, Num;
    DifferenceIs(a, v, false);
    ByteRange(Minus(a, v));
    ByteRemainder(Num(a) - Num(v), Num(Minus(a, v)), 0 - Number(!NoBorrow(a, v, false)));
  }

  lemma MinusIsDifference(a: bv8, v: bv8)
    ensures Minus(a, v) == Lo(Difference(a, v, Carry16(false)))
  {}

  lemma ZeroIs(v: bv8)
    ensures v == 0 <==> Num(v) == 0
  {
    Same(v, 0);
  }

  /** The sign bit. */
  lemma SignIs(v: bv8)
    ensures Neg(v) <==> Num(v) >= 128
  {
    Order(v, 0x80);
  }

  // -------------------------------------------------------------------------
  // Shifts

  function LeftWith(v: bv8, carry: bool): bv8 { (v << 1) | Bit(carry, 1) }

  lemma ShiftedLeft(v: bv8, carry: bool)
    ensures Num(LeftWith(v, carry)) + 256 * Number(Neg(v)) == 2 * Num(v) + Number(carry)
  {
    LeftIsSum(v, carry);
    hide LeftWith, Neg, Total, Lo, Carry16, NinthBit, Num;
    TotalIs(v, v, carry);
  }

  lemma LeftIsSum(v: bv8, carry: bool)
    ensures LeftWith(v, carry) == Lo(Total(v, v, Carry16(carry)))
    ensures NinthBit(Total(v, v, Carry16(carry))) == Neg(v)
  {}

  predicate LowBit(v: bv8) { v & 1 != 0 }

  lemma ShiftedRight(v: bv8, carry: bool)
    ensures 2 * Num(Rotated(v, Bit(carry, 0x80))) + Number(LowBit(v)) == Num(v) + 256 * Number(carry)
  {
    RightBack(v, carry);
    hide Rotated, Bit, Neg, LeftWith, LowBit, Num;
    ShiftedLeft(Rotated(v, Bit(carry, 0x80)), LowBit(v));
  }

  /** Shifting left again with the bit that came out gives the byte back. */
  lemma RightBack(v: bv8, carry: bool)
    ensures LeftWith(Rotated(v, Bit(carry, 0x80)), LowBit(v)) == v && Neg(Rotated(v, Bit(carry, 0x80))) == carry
  {}

  lemma Halves(v: bv8)
    ensures Num(Halved(v)) == Num(v) / 2 && (LowBit(v) <==> Num(v) % 2 == 1)
  {
    hide *;
    ShiftedRight(v, false);
    HalvedIsRotated(v);
    TwoParts(Num(v), Num(Halved(v)), LowBit(v));
  }

  function Halved(v: bv8): bv8 { v >> 1 }

  lemma HalvedIsRotated(v: bv8)
    ensures Halved(v) == Rotated(v, Bit(false, 0x80))
  {}

  lemma TwoParts(n: int, h: int, b: bool)
    requires 2 * h + Number(b) == n + 256 * Number(false)
    ensures h == n / 2 && (b <==> n % 2 == 1)
  {}

  // -------------------------------------------------------------------------
  // Binary digits

  /** The binary digit of n that counts for the k-th power of two. */
  predicate Digit(n: nat, k: nat)
    decreases k
  {
    if k == 0 then n % 2 == 1 else Digit(n / 2, k - 1)
  }

  function Both(x: bv8, y: bv8): bv8 { x & y }

  function Either(x: bv8, y: bv8): bv8 { x | y }

  function OneOf(x: bv8, y: bv8): bv8 { x ^ y }

  lemma {:induction false} LogicDigits(x: bv8, y: bv8, k: nat)
    ensures Digit(Num(Both(x, y)), k) <==> Digit(Num(x), k) && Digit(Num(y), k)
    ensures Digit(Num(Either(x, y)), k) <==> Digit(Num(x), k) || Digit(Num(y), k)
    ensures Digit(Num(OneOf(x, y)), k) <==> Digit(Num(x), k) != Digit(Num(y), k)
    decreases k
  {
    LogicLowest(x, y);
    LogicHalves(x, y);
    hide Both, Either, OneOf, Halved, LowBit, Num;
    Halves(x);
    Halves(y);
    Halves(Both(x, y));
    Halves(Either(x, y));
    Halves(OneOf(x, y));
    if k > 0 {
      LogicDigits(Halved(x), Halved(y), k - 1);
    }
  }

  lemma LogicLowest(x: bv8, y: bv8)
    ensures (LowBit(Both(x, y)) <==> LowBit(x) && LowBit(y)) && (LowBit(Either(x, y)) <==> LowBit(x) || LowBit(y))
    ensures LowBit(OneOf(x, y)) <==> LowBit(x) != LowBit(y)
  {}

  lemma LogicHalves(x: bv8, y: bv8)
    ensures Halved(Both(x, y)) == Both(Halved(x), Halved(y)) && Halved(Either(x, y)) == Either(Halved(x), Halved(y))
    ensures Halved(OneOf(x, y)) == OneOf(Halved(x), Halved(y))
  {}

  /** The digits the masks 0x40 and 0x20 select. */
  lemma SixthIs(v: bv8)
    ensures v & 0x40 != 0 <==> Num(v) / 64 % 2 == 1
  {
    SixthLow(v);
    hide LowBit, Halved, Num;
    FifthIs(Halved(v));
    Halves(v);
    Nested(Num(v));
  }

  lemma FifthIs(v: bv8)
    ensures v & 0x20 != 0 <==> Num(v) / 32 % 2 == 1
  {
    FifthLow(v);
    HighNibble(v);
    hide LowBit, Halved, Num;
    Halves(v >> 4);
    Halves(Halved(v >> 4));
    Nested(Num(v));
  }

  lemma SixthLow(v: bv8)
    ensures v & 0x40 != 0 <==> Halved(v) & 0x20 != 0
  {}

  lemma FifthLow(v: bv8)
    ensures v & 0x20 != 0 <==> LowBit(Halved(v >> 4))
  {}

  lemma Nested(n: nat)
    ensures n / 2 / 32 == n / 64 && n / 16 / 2 == n / 32
  {}

  // -------------------------------------------------------------------------
  // Addresses

  lemma WordParts(w: bv16)
    ensures Index(w) == Num(Lo(w)) + 256 * Num(Hi(w))
    ensures Index(w) / 256 == Num(Hi(w)) && Index(w) % 256 == Num(Lo(w))
  {
    HalvesIs(w);
    hide Lo, Hi;
    QuotientIs(Index(w), Num(Lo(w)), Num(Hi(w)));
  }

  lemma HalvesIs(w: bv16)
    ensures Index(w) == Num(Lo(w)) + 256 * Num(Hi(w))
  {
    SplitIs(w);
  }

  lemma SplitIs(w: bv16)
    ensures w as int == ((w & 0xff) as bv8) as int + 256 * ((w >> 8) as bv8) as int
  {}

  lemma QuotientIs(w: int, lo: int, hi: int)
    requires w == lo + 256 * hi && 0 <= lo < 256
    ensures w / 256 == hi && w % 256 == lo
  {}

  lemma WordIs(lo: bv8, hi: bv8)
    ensures Index(Word(lo, hi)) == Num(lo) + 256 * Num(hi)
  {
    PartsOf(lo, hi);
    hide Word, Lo, Hi, Num, Index;
    WordParts(Word(lo, hi));
  }

  lemma PartsOf(lo: bv8, hi: bv8)
    ensures Lo(Word(lo, hi)) == lo && Hi(Word(lo, hi)) == hi
  {}

  lemma AdvanceParts(x: bv16, y: bv16)
    ensures var low := Total(Lo(x), Lo(y), Carry16(false));
      Lo(Advance(x, y)) == Lo(low) && Hi(Advance(x, y)) == Lo(Total(Hi(x), Hi(y), Carry16(NinthBit(low))))
  {}

  /** Address sums wrap at sixteen bits. */
  lemma AdvanceIs(x: bv16, y: bv16)
    ensures Index(Advance(x, y)) == (Index(x) + Index(y)) % 0x10000
  {
    var low := Total(Lo(x), Lo(y), Carry16(false));
    AdvanceParts(x, y);
    hide Advance, Lo, Hi, Carry16, Total, NinthBit, Num, Index;
    WordParts(x);
    WordParts(y);
    WordParts(Advance(x, y));
    TotalIs(Lo(x), Lo(y), false);
    TotalIs(Hi(x), Hi(y), NinthBit(low));
    ByteRange(Lo(Advance(x, y)));
    ByteRange(Hi(Advance(x, y)));
    AddBytes(Index(x), Index(y), Num(Lo(x)), Num(Hi(x)), Num(Lo(y)), Num(Hi(y)),
      Index(Advance(x, y)), Num(Lo(Advance(x, y))), Num(Hi(Advance(x, y))), Number(NinthBit(low)),
      Number(NinthBit(Total(Hi(x), Hi(y), Carry16(NinthBit(low))))));
  }

  lemma AddBytes(x: int, y: int, xl: int, xh: int, yl: int, yh: int, w: int, wl: int, wh: int, c: int, d: int)
    requires x == xl + 256 * xh && y == yl + 256 * yh && w == wl + 256 * wh
    requires 0 <= wl < 256 && 0 <= wh < 256 && wl + 256 * c == xl + yl && wh + 256 * d == xh + yh + c
    ensures w == (x + y) % 0x10000
  {
    RemainderIs(x + y, w, d);
  }

  lemma RemainderIs(n: int, w: int, d: int)
    requires n == w + 0x10000 * d && 0 <= w < 0x10000
    ensures n % 0x10000 == w
  {}

  lemma IndexedIs(addr: bv16, index: bv8)
    ensures Index(Indexed(addr, index)) == (Index(addr) + Num(index)) % 0x10000
  {
    IndexedIsAdvance(addr, index);
    Widened(index);
    hide Indexed, Advance, Num, Index;
    AdvanceIs(addr, index as bv16);
  }

  lemma IndexedIsAdvance(addr: bv16, index: bv8)
    ensures Indexed(addr, index) == Advance(addr, index as bv16)
  {}

  lemma Widened(v: bv8)
    ensures Index(v as bv16) == Num(v)
  {}

  lemma SamePageIs(a: bv16, b: bv16)
    ensures SamePage(a, b) <==> Index(a) / 256 == Index(b) / 256
  {
    PageIsHigh(a, b);
    hide SamePage, Hi, Lo, Num, Index;
    Same(Hi(a), Hi(b));
    WordParts(a);
    WordParts(b);
  }

  lemma PageIsHigh(a: bv16, b: bv16)
    ensures SamePage(a, b) <==> Hi(a) == Hi(b)
  {}
}
