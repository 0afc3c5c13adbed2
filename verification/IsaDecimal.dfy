/** Decimal mode for all bytes, not only for those that are two decimal digits, and ARR. */
module IsaDecimal {
  import opened Isa
  import opened Numbers
  import opened IsaMeans

  /** The half sums of a decimal addition, the lower one adjusted before it carries. */
  function LowHalf(a: bv8, v: bv8, c: bool): nat { Num(a) % 16 + Num(v) % 16 + Number(c) }

  function HighHalf(a: bv8, v: bv8, c: bool): nat { Num(a) / 16 + Num(v) / 16 + Number(LowHalf(a, v, c) > 9) }

  /** Half a sum that is over nine is taken on by six. */
  function Fixed(half: nat): nat { if half > 9 then half + 6 else half }

  /**
   * Decimal addition of any two bytes: each half is taken on by six when it is over nine, the
   * lower one first; N and V see the upper half before that, Z the binary sum.
   */
  lemma AdcDecimalMeans(r: Regs, v: bv8)
    requires r.f.d
    ensures var s, low, high := ReadEffect(ADC, r, v), LowHalf(r.a, v, r.f.c), HighHalf(r.a, v, r.f.c);
      && Num(s.a) == 16 * (Fixed(high) % 16) + Fixed(low) % 16 && (s.f.c <==> Fixed(high) > 15)
      && (s.f.z <==> (Num(r.a) + Num(v) + Number(r.f.c)) % 256 == 0) && (s.f.n <==> high % 16 >= 8)
      && (s.f.v <==> (Num(r.a) >= 128 <==> Num(v) >= 128) && !(high % 16 >= 8 <==> Num(r.a) >= 128))
      && s == r.(a := s.a, f := r.f.(n := s.f.n, v := s.f.v, z := s.f.z, c := s.f.c))
  {
    hide *;
    AdcDecimalParts(r, v);
    DecimalValueIs(r.a, v, r.f.c);
    DecimalSignIs(r.a, v, r.f.c);
    DecimalZeroIs(r.a, v, r.f.c);
    SignIs(r.a);
    SignIs(v);
  }

  lemma DecimalValueIs(a: bv8, v: bv8, c: bool)
    ensures var low := LowSum(a, v, c);
      Num(Joined(ByteFixed(UpperSum(a, v, low)), ByteFixed(low))) ==
        16 * (Fixed(HighHalf(a, v, c)) % 16) + Fixed(LowHalf(a, v, c)) % 16
  {
    hide *;
    HalvesAre(a, v, c);
    JoinedIs(ByteFixed(UpperSum(a, v, LowSum(a, v, c))), ByteFixed(LowSum(a, v, c)));
  }

  lemma DecimalSignIs(a: bv8, v: bv8, c: bool)
    ensures var high := UpperSum(a, v, LowSum(a, v, c));
      (OverNine(high) <==> Fixed(HighHalf(a, v, c)) > 15) && (BitThree(high) <==> HighHalf(a, v, c) % 16 >= 8)
  {
    HalvesAre(a, v, c);
    SmallHalf(UpperSum(a, v, LowSum(a, v, c)));
    hide LowSum, UpperSum, OverNine, BitThree, Num, LowHalf, HighHalf;
  }

  lemma DecimalZeroIs(a: bv8, v: bv8, c: bool)
    ensures Lo(Total(a, v, Carry16(c))) == 0 <==> (Num(a) + Num(v) + Number(c)) % 256 == 0
  {
    var t := Total(a, v, Carry16(c));
    hide *;
    ZeroIs(Lo(t));
    TotalIs(a, v, c);
    ByteRemainder(Num(a) + Num(v) + Number(c), Num(Lo(t)), Number(NinthBit(t)));
  }

  function LowSum(a: bv8, v: bv8, c: bool): bv8 { NibbleSum(a, v, Carry8(c)) }

  function UpperSum(a: bv8, v: bv8, low: bv8): bv8 { NibbleSum(a >> 4, v >> 4, Carry8(OverNine(low))) }

  lemma AdcDecimalParts(r: Regs, v: bv8)
    requires r.f.d
    ensures var low, t := LowSum(r.a, v, r.f.c), Total(r.a, v, Carry16(r.f.c));
      var high := UpperSum(r.a, v, low);
      ReadEffect(ADC, r, v) == r.(a := Joined(ByteFixed(high), ByteFixed(low)),
        f := r.f.(n := BitThree(high), z := Lo(t) == 0, c := OverNine(high),
                  v := Neg(r.a) == Neg(v) && BitThree(high) != Neg(r.a)))
  {
    DecimalParts(r.a, v, r.f.c);
    hide LowSum, UpperSum, RawDecimal, Corrected, Total, Lo, Neg, Joined, ByteFixed, OverNine, BitThree;
  }

  predicate OverNine(h: bv8) { h > 9 }

  predicate BitThree(h: bv8) { h & 8 != 0 }

  function ByteFixed(h: bv8): bv8 { if h > 9 then h + 6 else h }

  /** An upper and a lower half as the macro holds them. */
  function RawOf(h: bv8, l: bv8): bv16 { ((h as bv16) << 4) | ((l & 0xf) as bv16) }

  lemma RawParts(a: bv8, v: bv8, c: bool)
    ensures var low := LowSum(a, v, c);
      var high := UpperSum(a, v, low);
      RawDecimal(a, v, Carry16(c)) == RawOf(high, ByteFixed(low))
  {
    hide RawLow, RawDigit, RawSum, LowSum, UpperSum, ByteFixed, RawOf;
    RawLower(a, v, c);
    LowSmall(a, v, c);
    RawUpper(a, v, LowSum(a, v, c));
  }

  lemma LowSmall(a: bv8, v: bv8, c: bool)
    ensures LowSum(a, v, c) <= 31
  {}

  lemma RawLower(a: bv8, v: bv8, c: bool)
    ensures RawLow(a, v, Carry16(c)) == LowSum(a, v, c) as bv16
  {}

  lemma RawUpper(a: bv8, v: bv8, low: bv8)
    requires low <= 31
    ensures RawSum(a, v, RawDigit(low as bv16)) == RawOf(UpperSum(a, v, low), ByteFixed(low))
  {}

  lemma RawMeans(h: bv8, l: bv8)
    requires h <= 31
    ensures Lo(Corrected(RawOf(h, l))) == Joined(ByteFixed(h), l)
    ensures (Corrected(RawOf(h, l)) > 0xff <==> OverNine(h)) && (Neg(Lo(RawOf(h, l))) <==> BitThree(h))
  {}

  lemma DecimalParts(a: bv8, v: bv8, c: bool)
    ensures var low, raw := LowSum(a, v, c), RawDecimal(a, v, Carry16(c));
      var high := UpperSum(a, v, low);
      && Lo(Corrected(raw)) == Joined(ByteFixed(high), ByteFixed(low))
      && (Corrected(raw) > 0xff <==> OverNine(high)) && (Neg(Lo(raw)) <==> BitThree(high))
  {
    var low := LowSum(a, v, c);
    RawParts(a, v, c);
    HalvesAre(a, v, c);
    RawMeans(UpperSum(a, v, low), ByteFixed(low));
    hide RawDecimal, RawOf, Corrected, Lo, Neg, Joined, OverNine, BitThree, ByteFixed, LowSum, UpperSum, Carry16, Num;
  }

  lemma SmallHalf(h: bv8)
    requires h <= 31
    ensures (OverNine(h) <==> Num(h) > 9) && (BitThree(h) <==> Num(h) % 16 >= 8) && Num(ByteFixed(h)) == Fixed(Num(h))
  {
    Less(9, h);
    BitThreeIs(h);
    Less(31, h);
    SixMore(h);
    hide BitThree;
  }

  lemma SixMore(h: bv8)
    requires h <= 31
    ensures Num(h + 6) == Num(h) + 6
  {}

  lemma BitThreeIs(h: bv8)
    ensures BitThree(h) <==> Num(h) % 16 >= 8
  {
    LowNibble(h);
    LowEight(h);
  }

  lemma LowEight(h: bv8)
    ensures BitThree(h) <==> Num(h & 0xf) >= 8
  {}

  lemma HalvesAre(a: bv8, v: bv8, c: bool)
    ensures var low := LowSum(a, v, c);
      var high := UpperSum(a, v, low);
      && Num(high) == HighHalf(a, v, c) && high <= 31
      && Num(ByteFixed(low)) == Fixed(LowHalf(a, v, c)) && Num(ByteFixed(high)) == Fixed(HighHalf(a, v, c))
  {
    var low := LowSum(a, v, c);
    var high := UpperSum(a, v, low);
    LowHalfIs(a, v, c);
    CarryIs(OverNine(low));
    NibbleSumIs(a >> 4, v >> 4, Carry8(OverNine(low)));
    HighNibbles(a, v, low);
    hide LowSum, LowHalf, NibbleSum, Carry8, OverNine, BitThree, ByteFixed, Fixed, Num;
    SmallHalf(low);
    SmallHalf(high);
  }

  lemma LowHalfIs(a: bv8, v: bv8, c: bool)
    ensures Num(LowSum(a, v, c)) == LowHalf(a, v, c) && LowSum(a, v, c) <= 31
  {
    CarryIs(c);
    NibbleSumIs(a, v, Carry8(c));
    hide NibbleSum, Carry8, Num;
  }

  /** The half differences of a decimal subtraction. */
  function LowLess(a: bv8, v: bv8, b: bool): int { Num(a) % 16 - Num(v) % 16 - Number(b) }

  function HighLess(a: bv8, v: bv8, b: bool): int { Num(a) / 16 - Num(v) / 16 - Number(LowLess(a, v, b) < 0) }

  /** Half a difference that is below zero is taken down by six. */
  function DownSix(half: int): nat { (if half < 0 then half - 6 else half) % 16 }

  /**
   * Decimal subtraction of any two bytes: each half that borrows is taken down by six, the lower
   * one first.  The flags are those of `SbcMeans`.
   */
  lemma SbcDecimalMeans(r: Regs, v: bv8)
    requires r.f.d
    ensures Num(ReadEffect(SBC, r, v).a) == 16 * DownSix(HighLess(r.a, v, !r.f.c)) + DownSix(LowLess(r.a, v, !r.f.c))
  {
    SbcDecimalParts(r, v);
    SubDecimalParts(r.a, v, !r.f.c);
    hide *;
    HalfDifferenceIs(r.a, v, !r.f.c);
    UpperDifferenceIs(r.a, v, !r.f.c);
    HalvesJoined(HalfDifference(r.a >> 4, v >> 4, HalfBorrows(r.a, v, !r.f.c)), HalfDifference(r.a, v, !r.f.c),
      HighLess(r.a, v, !r.f.c), LowLess(r.a, v, !r.f.c));
  }

  lemma HalvesJoined(h: bv8, l: bv8, high: int, low: int)
    requires Num(h) % 16 == DownSix(high) && Num(l) % 16 == DownSix(low)
    ensures Num(Joined(h, l)) == 16 * DownSix(high) + DownSix(low)
  {
    hide *;
    JoinedIs(h, l);
  }

  lemma UpperDifferenceIs(a: bv8, v: bv8, b: bool)
    ensures Num(HalfDifference(a >> 4, v >> 4, HalfBorrows(a, v, b))) % 16 == DownSix(HighLess(a, v, b))
  {
    HalfDifferenceIs(a, v, b);
    HalfDifferenceIs(a >> 4, v >> 4, HalfBorrows(a, v, b));
    HighNibbles(a, v, a);
    hide HalfDifference, HalfBorrows, DownSix, Num;
  }

  lemma SbcDecimalParts(r: Regs, v: bv8)
    requires r.f.d
    ensures ReadEffect(SBC, r, v).a == SubDecimal(r.a, v, Bit(!r.f.c, 1))
  {
    hide SubDecimal, SubBinary, Bit;
  }

  /** The lower half of a difference. */
  function HalfDifference(a: bv8, v: bv8, b: bool): bv8 {
    Minus(Tens(HalfBorrows(a, v, b)) + (a & 0xf), HalfTake(v, b))
  }

  function Tens(b: bool): bv8 { if b then 10 else 0 }

  function HalfTake(v: bv8, b: bool): bv8 { Carry8(b) + (v & 0xf) }

  predicate HalfBorrows(a: bv8, v: bv8, b: bool) {
    a & 0xf < HalfTake(v, b)
  }

  lemma LowSame(a: bv8, v: bv8, b: bool)
    ensures DigitDifference(a & 0xf, LowTake(v, Bit(b, 1))) == HalfDifference(a, v, b)
    ensures LowBorrows(a, v, Bit(b, 1)) == HalfBorrows(a, v, b)
  {}

  lemma HighSame(a: bv8, v: bv8, b: bool)
    ensures DigitDifference(a >> 4, HighTake(v, b)) == HalfDifference(a >> 4, v >> 4, b)
  {}

  lemma SubDecimalParts(a: bv8, v: bv8, b: bool)
    ensures SubDecimal(a, v, Bit(b, 1)) ==
      Joined(HalfDifference(a >> 4, v >> 4, HalfBorrows(a, v, b)), HalfDifference(a, v, b))
  {
    var c := Bit(b, 1);
    LowSame(a, v, b);
    HighSame(a, v, LowBorrows(a, v, c));
    TwoDigitsJoin(DigitDifference(a & 0xf, LowTake(v, c)), DigitDifference(a >> 4, HighTake(v, LowBorrows(a, v, c))));
    hide DigitDifference, LowTake, HighTake, LowBorrows, HalfDifference, HalfBorrows, Bit, Joined, TwoDigits;
  }

  lemma TwoDigitsJoin(lo: bv8, hi: bv8)
    ensures TwoDigits(lo, hi) == Joined(hi, lo)
  {}

  lemma HalfDifferenceIs(a: bv8, v: bv8, b: bool)
    ensures HalfBorrows(a, v, b) <==> LowLess(a, v, b) < 0
    ensures Num(HalfDifference(a, v, b)) % 16 == DownSix(LowLess(a, v, b))
  {
    var c := HalfBorrows(a, v, b);
    HalfTakeIs(v, b);
    LowNibble(a);
    Less(a & 0xf, HalfTake(v, b));
    TensIs(c, a);
    MinusIs(Tens(c) + (a & 0xf), HalfTake(v, b));
    hide HalfTake, Minus, Tens, Num;
    SixteenDown(Num(a) % 16 - Num(v) % 16 - Number(b));
    ByteInHalves(Num(Tens(c) + (a & 0xf)) - Num(HalfTake(v, b)));
  }

  lemma HalfTakeIs(v: bv8, b: bool)
    ensures Num(HalfTake(v, b)) == Number(b) + Num(v) % 16
  {
    LowNibble(v);
    CarryIs(b);
    LowIsSmall(v);
    SmallSum(Carry8(b), v & 0xf);
    hide Carry8, Num;
  }

  lemma LowIsSmall(v: bv8)
    ensures v & 0xf <= 15
  {}

  lemma TensIs(c: bool, a: bv8)
    ensures Num(Tens(c) + (a & 0xf)) == (if c then 10 else 0) + Num(a & 0xf)
  {
    LowIsSmall(a);
    TenIs(c);
    SmallSum(Tens(c), a & 0xf);
    hide Num, Tens;
  }

  lemma TenIs(c: bool)
    ensures Num(Tens(c)) == (if c then 10 else 0) && Tens(c) <= 16
  {}

  lemma SixteenDown(d: int)
    ensures (d + 10) % 16 == (d - 6) % 16
  {}

  lemma ByteInHalves(d: int)
    ensures d % 256 % 16 == d % 16
  {}

  // -------------------------------------------------------------------------
  // AND and rotate right

  /** What AND leaves before ARR rotates it, and after. */
  function Anded(r: Regs, v: bv8): nat { Num(Both(r.a, v)) }

  function RotatedRight(n: nat, carry: bool): nat { n / 2 + 128 * Number(carry) }

  lemma RotatedIs(t: bv8, carry: bool)
    ensures Num(Rotated(t, Bit(carry, 0x80))) == RotatedRight(Num(t), carry)
  {
    hide *;
    ShiftedRight(t, carry);
    Halves(t);
    RightIs(Num(t), Num(Rotated(t, Bit(carry, 0x80))), LowBit(t), carry);
  }

  lemma RightIs(n: nat, q: nat, low: bool, carry: bool)
    requires 2 * q + Number(low) == n + 256 * Number(carry) && (low <==> n % 2 == 1)
    ensures q == RotatedRight(n, carry)
  {}

  /** Binary ARR: AND and rotate right, with C and V from the two digits below the sign. */
  lemma ArrMeans(r: Regs, v: bv8)
    requires !r.f.d
    ensures var s := ReadEffect(ARR, r, v);
      && Num(s.a) == RotatedRight(Anded(r, v), r.f.c) && NZOf(s.f, s.a)
      && (s.f.c <==> Num(s.a) / 64 % 2 == 1) && (s.f.v <==> Num(s.a) / 64 % 2 != Num(s.a) / 32 % 2)
      && s == r.(a := s.a, f := r.f.(n := s.f.n, v := s.f.v, z := s.f.z, c := s.f.c))
  {
    var q := Rotated(Both(r.a, v), Bit(r.f.c, 0x80));
    ArrParts(r, v);
    RotatedIs(Both(r.a, v), r.f.c);
    SixthIs(q);
    FifthIs(q);
    WithNZIs(r.f, q);
    hide ReadEffect, WithNZ, Both, Rotated, RotatedRight, Bit, Num;
    TwoValues(Num(q) / 64);
    TwoValues(Num(q) / 32);
  }

  lemma TwoValues(n: nat)
    ensures n % 2 == 0 || n % 2 == 1
  {}

  lemma ArrParts(r: Regs, v: bv8)
    requires !r.f.d
    ensures ReadEffect(ARR, r, v) == ArrBinary(Rotated(Both(r.a, v), Bit(r.f.c, 0x80)), r)
  {
    hide Rotated, Bit, ArrBinary;
  }

  /** A digit and its lowest bit are over five. */
  predicate OverFive(digit: nat) { digit + digit % 2 > 5 }

  /**
   * Decimal ARR: N is the old carry, Z and V look at the rotation, then each half of the
   * rotation is taken on by six if the half it came from is over five.
   */
  lemma ArrDecimalMeans(r: Regs, v: bv8)
    requires r.f.d
    ensures var s, t := ReadEffect(ARR, r, v), Anded(r, v);
      var q := RotatedRight(t, r.f.c);
      && Num(s.a) == 16 * UpSix(q / 16, OverFive(t / 16)) + UpSix(q % 16, OverFive(t % 16))
      && (s.f.c <==> OverFive(t / 16)) && (s.f.n <==> r.f.c) && (s.f.z <==> q == 0)
      && (s.f.v <==> q / 64 % 2 != t / 64 % 2)
      && s == r.(a := s.a, f := r.f.(n := s.f.n, v := s.f.v, z := s.f.z, c := s.f.c))
  {
    var t := Both(r.a, v);
    var q := Rotated(t, Bit(r.f.c, 0x80));
    ArrDecimalParts(r, v);
    hide *;
    RotatedIs(t, r.f.c);
    ArrFlagsAre(t, q);
    ArrDigits(t, q);
    ZeroIs(q);
  }

  predicate LowOver(t: bv8) { (t & 0xf) + (t & 1) > 5 }

  predicate HighOver(t: bv8) { (t & 0xf0) as bv16 + (t & 0x10) as bv16 > 0x50 }

  function ArrAccu(t: bv8, q: bv8): bv8 {
    (if HighOver(t) then (q + 0x60) & 0xf0 else q & 0xf0) | (if LowOver(t) then (q + 6) & 0xf else q & 0xf)
  }

  predicate SixthDiffer(q: bv8, t: bv8) { (q ^ t) & 0x40 != 0 }

  lemma ArrDecimalParts(r: Regs, v: bv8)
    requires r.f.d
    ensures var t := Both(r.a, v);
      var q := Rotated(t, Bit(r.f.c, 0x80));
      ReadEffect(ARR, r, v) == r.(a := ArrAccu(t, q),
        f := r.f.(n := r.f.c, z := q == 0, v := SixthDiffer(q, t), c := HighOver(t)))
  {
    ArrCorrects(r, v);
    hide ReadEffect, AndRotate, Both, Rotated, Bit;
  }

  lemma ArrCorrects(r: Regs, v: bv8)
    requires r.f.d
    ensures ReadEffect(ARR, r, v) == ArrDecimal(Both(r.a, v), Rotated(Both(r.a, v), Bit(r.f.c, 0x80)), r)
  {
    hide Rotated, Bit, ArrDecimal;
  }

  lemma ArrFlagsAre(t: bv8, q: bv8)
    ensures SixthDiffer(q, t) <==> Num(q) / 64 % 2 != Num(t) / 64 % 2
  {
    SixthApart(q, t);
    SixthIs(q);
    SixthIs(t);
    hide SixthDiffer, Num;
    TwoValues(Num(q) / 64);
    TwoValues(Num(t) / 64);
  }

  lemma SixthApart(q: bv8, t: bv8)
    ensures SixthDiffer(q, t) <==> (q & 0x40 != 0) != (t & 0x40 != 0)
  {}

  function SixOn(h: bv8, over: bool): bv8 { if over then h + 6 else h }

  lemma ArrDigits(t: bv8, q: bv8)
    ensures Num(ArrAccu(t, q)) ==
      16 * UpSix(Num(q) / 16, OverFive(Num(t) / 16)) + UpSix(Num(q) % 16, OverFive(Num(t) % 16))
    ensures HighOver(t) <==> OverFive(Num(t) / 16)
  {
    ArrJoined(t, q);
    HighOverIs(t);
    LowOverIs(t);
    hide *;
    JoinedIs(SixOn(q >> 4, HighOver(t)), SixOn(q & 0xf, LowOver(t)));
    SixOnIs(q >> 4, HighOver(t));
    SixOnIs(q & 0xf, LowOver(t));
    Nibbles(q);
  }

  lemma ArrJoined(t: bv8, q: bv8)
    ensures ArrAccu(t, q) == Joined(SixOn(q >> 4, HighOver(t)), SixOn(q & 0xf, LowOver(t)))
    ensures q >> 4 <= 15 && q & 0xf <= 15
  {
    hide HighOver, LowOver;
  }

  lemma SixOnIs(h: bv8, over: bool)
    requires h <= 15
    ensures Num(SixOn(h, over)) % 16 == UpSix(Num(h), over)
  {
    SixMore(h);
    hide Num;
  }

  function UpSix(half: nat, over: bool): nat { (half + if over then 6 else 0) % 16 }

  function WithLowest(t: bv8): bv8 { (t & 0xf) + (t & 1) }

  lemma WithLowestIs(t: bv8)
    ensures Num(WithLowest(t)) == Num(t) % 16 + Num(t) % 2
  {
    LowNibble(t);
    LowIsSmall(t);
    LowestIs(t);
    SmallSum(t & 1, t & 0xf);
    WithLowestSum(t);
    hide WithLowest, Num;
  }

  lemma WithLowestSum(t: bv8)
    ensures WithLowest(t) == (t & 1) + (t & 0xf) && t & 1 <= 16
  {}

  lemma LowestIs(t: bv8)
    ensures Num(t & 1) == Num(t) % 2
  {}

  lemma FiveLess(x: bv8)
    ensures x > 5 <==> Num(x) > 5
  {}

  lemma LowOverIs(t: bv8)
    ensures LowOver(t) <==> OverFive(Num(t) % 16)
  {
    WithLowestIs(t);
    FiveLess(WithLowest(t));
    assert LowOver(t) <==> WithLowest(t) > 5;
    hide LowOver, WithLowest, Num;
  }

  lemma HighOverIs(t: bv8)
    ensures HighOver(t) <==> OverFive(Num(t) / 16)
  {
    HighIsLow(t);
    LowOverIs(t >> 4);
    HighNibble(t);
    ByteBound(t);
    hide HighOver, LowOver, OverFive, Num;
  }

  lemma HighIsLow(t: bv8)
    ensures HighOver(t) <==> LowOver(t >> 4)
  {}
}
