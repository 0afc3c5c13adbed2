/**
 * Decimal mode as arithmetic: bytes of two decimal digits, numbers of any number of bytes with
 * the least significant byte first, added or subtracted by a loop of LDA and ADC or SBC.
 */
module Bcd {
  import opened Isa

  predicate ValidByte(b: bv8) {
    b & 0xf <= 9 && b >> 4 <= 9
  }

  /** A digit as a number. */
  function D(t: bv8): nat {
    t as int
  }

  function ByteValue(b: bv8): nat {
    10 * D(b >> 4) + D(b & 0xf)
  }

  predicate Valid(xs: seq<bv8>) {
    forall i :: 0 <= i < |xs| ==> ValidByte(xs[i])
  }

  function Value(xs: seq<bv8>): nat {
    if xs == [] then 0 else ByteValue(xs[0]) + 100 * Value(xs[1..])
  }

  function Pow100(n: nat): nat {
    if n == 0 then 1 else 100 * Pow100(n - 1)
  }

  function Carry(r: Regs): nat {
    if r.f.c then 1 else 0
  }

  datatype Sums = Sums(bytes: seq<bv8>, regs: Regs)

  /** LDA xs[i], ADC or SBC ys[i], STA, for every i. */
  function Chain(op: ReadOp, r: Regs, xs: seq<bv8>, ys: seq<bv8>): Sums
    requires |xs| == |ys|
    decreases |xs|
  {
    if xs == [] then Sums([], r) else
      var s := ReadEffect(op, ReadEffect(LDA, r, xs[0]), ys[0]);
      var rest := Chain(op, s, xs[1..], ys[1..]);
      Sums([s.a] + rest.bytes, rest.regs)
  }

  // -------------------------------------------------------------------------
  // One digit

  lemma SmallSum(x: bv8, y: bv8)
    requires x <= 15 && y <= 15
    ensures (x + y) as int == x as int + y as int
  {
  }

  lemma SmallDifference(x: bv8, y: bv8)
    requires y <= x <= 31
    ensures (x - y) as int == x as int - y as int
  {
  }

  lemma Order(x: bv8, y: bv8)
    ensures (x < y) == (x as int < y as int)
  {
  }

  function DigitSum(x: bv8, y: bv8, carry: bool): bv8 {
    ThreeSum(x, y, Bit(carry, 1))
  }

  function ThreeSum(x: bv8, y: bv8, c: bv8): bv8 {
    x + y + c
  }

  lemma DigitSumValue(x: bv8, y: bv8, carry: bool)
    requires x <= 9 && y <= 9
    ensures D(DigitSum(x, y, carry)) == D(x) + D(y) + (if carry then 1 else 0) && DigitSum(x, y, carry) <= 19
  {
    SmallSum(x, y);
    if carry {
      assert x + y <= 18;
      Increment(x + y);
    }
  }

  lemma Increment(x: bv8)
    requires x < 255
    ensures (x + 1) as int == x as int + 1
  {
  }

  predicate Ten(t: bv8) {
    t >= 10
  }

  function Units(t: bv8): bv8 {
    if t >= 10 then t - 10 else t
  }

  lemma UnitsValue(t: bv8)
    requires t <= 19
    ensures Units(t) <= 9 && D(Units(t)) + (if Ten(t) then 10 else 0) == D(t)
  {
    if t >= 10 {
      SmallDifference(t, 10);
    }
  }

  predicate CarriesOut(sum: bv16) {
    sum > 0xff
  }

  /** The corrected decimal sum is two decimal digits, each with its own carry. */
  lemma SumDigits(a: bv8, v: bv8, carry: bool)
    requires ValidByte(a) && ValidByte(v)
    ensures
      var lo := DigitSum(a & 0xf, v & 0xf, carry);
      var hi := DigitSum(a >> 4, v >> 4, Ten(lo));
      var sum := Corrected(RawDecimal(a, v, Bit(carry, 1) as bv16));
      Lo(sum) & 0xf == Units(lo) && Lo(sum) >> 4 == Units(hi) && CarriesOut(sum) == Ten(hi)
  {
    var c := Bit(carry, 1);
    assert c == 0 || c == 1;
    SumDigitsBits(a, v, c);
    hide RawDecimal, Corrected, ThreeSum, Bit, Ten, Units, CarriesOut, Lo;
  }

  lemma SumDigitsBits(a: bv8, v: bv8, c: bv8)
    requires ValidByte(a) && ValidByte(v) && c <= 1
    ensures
      var lo := ThreeSum(a & 0xf, v & 0xf, c);
      var hi := ThreeSum(a >> 4, v >> 4, Bit(Ten(lo), 1));
      var sum := Corrected(RawDecimal(a, v, c as bv16));
      Lo(sum) & 0xf == Units(lo) && Lo(sum) >> 4 == Units(hi) && CarriesOut(sum) == Ten(hi)
  {
  }

  lemma DecimalSumValue(a: bv8, v: bv8, carry: bool)
    requires ValidByte(a) && ValidByte(v)
    ensures var sum := Corrected(RawDecimal(a, v, Bit(carry, 1) as bv16));
            && ValidByte(Lo(sum))
            && ByteValue(Lo(sum)) + (if CarriesOut(sum) then 100 else 0) ==
              ByteValue(a) + ByteValue(v) + (if carry then 1 else 0)
  {
    hide Corrected, RawDecimal, Lo, DigitSum, Units, Bit, D, Ten, CarriesOut;
    var lo := DigitSum(a & 0xf, v & 0xf, carry);
    var hi := DigitSum(a >> 4, v >> 4, Ten(lo));
    DigitSumValue(a & 0xf, v & 0xf, carry);
    DigitSumValue(a >> 4, v >> 4, Ten(lo));
    UnitsValue(lo);
    UnitsValue(hi);
    SumDigits(a, v, carry);
  }

  /** One decimal ADC adds two digits and the carry, whatever the carry is. */
  lemma AddByte(r: Regs, v: bv8)
    requires r.f.d && ValidByte(r.a) && ValidByte(v)
    ensures var s := ReadEffect(ADC, r, v);
            ValidByte(s.a) && s.f.d && ByteValue(s.a) + 100 * Carry(s) == ByteValue(r.a) + ByteValue(v) + Carry(r)
  {
    hide Corrected, RawDecimal, Lo, Neg, Total, Bit, CarryIn, ByteValue, ValidByte;
    hide WithA, WithX, WithY, Subtract, Compare, TestBits, AndRotate, AddBinary, Minus;
    DecimalSumValue(r.a, v, r.f.c);
    CarryIsBit(r.f);
  }

  lemma CarryIsBit(f: Flags)
    ensures CarryIn(f) == Bit(f.c, 1) as bv16 && BorrowIn(f) == Bit(!f.c, 1) as bv16
  {
  }

  predicate Less(x: bv8, y: bv8) {
    x < y
  }

  lemma DigitDifferenceValue(x: bv8, y: bv8)
    requires x <= 9 && y <= 10
    ensures D(DigitDifference(x, y)) == D(x) - D(y) + (if Less(x, y) then 10 else 0) && DigitDifference(x, y) <= 9
  {
    if x < y {
      SmallSum(x, 10);
      SmallDifference(x + 10, y);
    } else {
      SmallDifference(x, y);
    }
  }

  predicate NoBorrow(a: bv8, v: bv8, borrow: bv16) {
    a as bv16 >= v as bv16 + borrow
  }

  /** A decimal difference is two decimal digits, and the binary borrow is the decimal one. */
  lemma DifferenceDigits(a: bv8, v: bv8, borrow: bv8)
    requires ValidByte(a) && ValidByte(v) && borrow <= 1
    ensures
      var low := Less(a & 0xf, LowTake(v, borrow));
      var d := SubDecimal(a, v, borrow);
      && d & 0xf == DigitDifference(a & 0xf, LowTake(v, borrow))
      && d >> 4 == DigitDifference(a >> 4, HighTake(v, low))
      && NoBorrow(a, v, borrow as bv16) == !Less(a >> 4, HighTake(v, low))
  {
  }

  lemma TakeValue(v: bv8, borrow: bool, lowBorrows: bool)
    requires ValidByte(v)
    ensures D(LowTake(v, Bit(borrow, 1))) == D(v & 0xf) + (if borrow then 1 else 0) && LowTake(v, Bit(borrow, 1)) <= 10
    ensures D(HighTake(v, lowBorrows)) == D(v >> 4) + (if lowBorrows then 1 else 0) && HighTake(v, lowBorrows) <= 10
  {
    if borrow {
      Increment(v & 0xf);
    }
    if lowBorrows {
      Increment(v >> 4);
    }
  }

  lemma BitIsSmall(b: bool)
    ensures Bit(b, 1) <= 1
  {
  }

  lemma DecimalDifferenceValue(a: bv8, v: bv8, borrow: bool)
    requires ValidByte(a) && ValidByte(v)
    ensures var d := SubDecimal(a, v, Bit(borrow, 1));
            && ValidByte(d)
            && ByteValue(d) + ByteValue(v) + (if borrow then 1 else 0) ==
               ByteValue(a) + (if NoBorrow(a, v, Bit(borrow, 1) as bv16) then 0 else 100)
  {
    hide SubDecimal, LowTake, HighTake, DigitDifference, Bit, D, Less, NoBorrow;
    BitIsSmall(borrow);
    var take := LowTake(v, Bit(borrow, 1));
    var low := Less(a & 0xf, take);
    TakeValue(v, borrow, low);
    DigitDifferenceValue(a & 0xf, take);
    DigitDifferenceValue(a >> 4, HighTake(v, low));
    DifferenceDigits(a, v, Bit(borrow, 1));
  }

  lemma BorrowOut(r: Regs, v: bv8)
    ensures ReadEffect(SBC, r, v).f.c == NoBorrow(r.a, v, BorrowIn(r.f))
    ensures ReadEffect(SBC, r, v).f.d == r.f.d
    ensures r.f.d ==> ReadEffect(SBC, r, v).a == SubDecimal(r.a, v, Bit(!r.f.c, 1))
  {
    hide SubDecimal, Lo, Neg, Difference, Bit, BorrowIn;
    hide WithA, WithX, WithY, Add, Compare, TestBits, AndRotate, Minus;
  }

  /** One decimal SBC subtracts two digits and the borrow. */
  lemma SubtractByte(r: Regs, v: bv8)
    requires r.f.d && ValidByte(r.a) && ValidByte(v)
    ensures var s := ReadEffect(SBC, r, v);
            && ValidByte(s.a) && s.f.d
            && ByteValue(s.a) + ByteValue(v) + (1 - Carry(r)) == ByteValue(r.a) + 100 * (1 - Carry(s))
  {
    hide SubDecimal, Lo, Neg, Difference, Bit, BorrowIn, ByteValue, ValidByte;
    hide ReadEffect, NoBorrow;
    BorrowOut(r, v);
    DecimalDifferenceValue(r.a, v, !r.f.c);
    CarryIsBit(r.f);
  }

  // -------------------------------------------------------------------------
  // Any number of bytes

  lemma LoadKeeps(r: Regs, v: bv8)
    ensures var s := ReadEffect(LDA, r, v); s.a == v && s.f.c == r.f.c && s.f.d == r.f.d
  {
  }

  /** A loop of decimal ADCs is decimal addition with a carry out. */
  lemma {:induction false} AddChain(r: Regs, xs: seq<bv8>, ys: seq<bv8>)
    requires |xs| == |ys| && Valid(xs) && Valid(ys) && r.f.d
    ensures var s := Chain(ADC, r, xs, ys);
            && |s.bytes| == |xs| && Valid(s.bytes) && s.regs.f.d
            && Value(s.bytes) + (if s.regs.f.c then Pow100(|xs|) else 0) == Value(xs) + Value(ys) + Carry(r)
    decreases |xs|
  {
    if xs != [] {
      hide ReadEffect, ByteValue, ValidByte;
      var l := ReadEffect(LDA, r, xs[0]);
      LoadKeeps(r, xs[0]);
      AddByte(l, ys[0]);
      var s := ReadEffect(ADC, l, ys[0]);
      AddChain(s, xs[1..], ys[1..]);
      var rest := Chain(ADC, s, xs[1..], ys[1..]);
      assert ([s.a] + rest.bytes)[1..] == rest.bytes;
    }
  }

  /** A loop of decimal SBCs is decimal subtraction with a borrow out. */
  lemma {:induction false} SubtractChain(r: Regs, xs: seq<bv8>, ys: seq<bv8>)
    requires |xs| == |ys| && Valid(xs) && Valid(ys) && r.f.d
    ensures var s := Chain(SBC, r, xs, ys);
            && |s.bytes| == |xs| && Valid(s.bytes) && s.regs.f.d
            && Value(s.bytes) + Value(ys) + (1 - Carry(r)) == Value(xs) + (if s.regs.f.c then 0 else Pow100(|xs|))
    decreases |xs|
  {
    if xs != [] {
      hide ReadEffect, ByteValue, ValidByte;
      var l := ReadEffect(LDA, r, xs[0]);
      LoadKeeps(r, xs[0]);
      SubtractByte(l, ys[0]);
      var s := ReadEffect(SBC, l, ys[0]);
      SubtractChain(s, xs[1..], ys[1..]);
      var rest := Chain(SBC, s, xs[1..], ys[1..]);
      assert ([s.a] + rest.bytes)[1..] == rest.bytes;
    }
  }

  lemma {:induction false} ValueBound(xs: seq<bv8>)
    requires Valid(xs)
    ensures Value(xs) < Pow100(|xs|)
  {
    if xs != [] {
      ValueBound(xs[1..]);
      ByteBound(xs[0]);
    }
  }

  lemma ByteBound(b: bv8)
    requires ValidByte(b)
    ensures ByteValue(b) < 100
  {
    Order(b >> 4, 10);
    Order(b & 0xf, 10);
  }

  /** Two decimal numbers of the same length and value are the same bytes. */
  lemma {:induction false} ValueIsInjective(xs: seq<bv8>, ys: seq<bv8>)
    requires |xs| == |ys| && Valid(xs) && Valid(ys) && Value(xs) == Value(ys)
    ensures xs == ys
  {
    hide ByteValue, ValidByte;
    if xs != [] {
      ByteBound(xs[0]);
      ByteBound(ys[0]);
      assert ByteValue(xs[0]) == ByteValue(ys[0]) && Value(xs[1..]) == Value(ys[1..]);
      ByteIsInjective(xs[0], ys[0]);
      ValueIsInjective(xs[1..], ys[1..]);
      assert xs == [xs[0]] + xs[1..] && ys == [ys[0]] + ys[1..];
    }
  }

  lemma ByteIsInjective(a: bv8, b: bv8)
    requires ValidByte(a) && ValidByte(b) && ByteValue(a) == ByteValue(b)
    ensures a == b
  {
    Order(a & 0xf, b & 0xf);
    Order(b & 0xf, a & 0xf);
    Order(a >> 4, b >> 4);
    Order(b >> 4, a >> 4);
    Order(a & 0xf, 10);
    Order(b & 0xf, 10);
    assert a & 0xf == b & 0xf && a >> 4 == b >> 4;
    assert a == ((a >> 4) << 4) | (a & 0xf);
  }

  /** Subtracting what was added gives the number back, even when the sum overflowed. */
  lemma SubtractUndoesAdd(r: Regs, q: Regs, xs: seq<bv8>, ys: seq<bv8>)
    requires |xs| == |ys| && Valid(xs) && Valid(ys)
    requires r.f.d && q.f.d && q.f.c == !r.f.c
    ensures var sum := Chain(ADC, r, xs, ys).bytes;
            |sum| == |ys| && Chain(SBC, q, sum, ys).bytes == xs
              && Chain(SBC, q, sum, ys).regs.f.c == !Chain(ADC, r, xs, ys).regs.f.c
  {
    hide Chain, Value, Valid, Pow100;
    AddChain(r, xs, ys);
    var sum := Chain(ADC, r, xs, ys);
    SubtractChain(q, sum.bytes, ys);
    var back := Chain(SBC, q, sum.bytes, ys);
    ValueBound(back.bytes);
    ValueBound(xs);
    ValueIsInjective(back.bytes, xs);
  }
}
