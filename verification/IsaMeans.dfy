/**
 * What the instructions compute, in whole numbers: bytes from 0 to 255, addresses from 0 to
 * 65535, flags as the signs, zeroes, carries and overflows of sums and differences.
 */
module IsaMeans {
  import opened Isa
  import opened Numbers
  import Machine

  /** Flags of a result. */
  predicate NZOf(f: Flags, w: bv8) {
    (f.z <==> Num(w) == 0) && (f.n <==> Num(w) >= 128)
  }

  lemma WithNZIs(f: Flags, w: bv8)
    ensures NZOf(WithNZ(f, w), w) && WithNZ(f, w) == f.(n := WithNZ(f, w).n, z := WithNZ(f, w).z)
  {
    SignIs(w);
    ZeroIs(w);
    hide Neg, Num;
  }

  // -------------------------------------------------------------------------
  // Comparing

  /** What comparing m with v leaves of the flags f. */
  predicate ComparedAs(f: Flags, g: Flags, m: int, v: int) {
    && (g.c <==> m >= v) && (g.z <==> m == v) && (g.n <==> (m - v) % 256 >= 128)
    && g == f.(n := g.n, z := g.z, c := g.c)
  }

  lemma CompareIs(f: Flags, a: bv8, v: bv8)
    ensures ComparedAs(f, Compare(f, a, v), Num(a), Num(v))
  {
    WithNZIs(f, Minus(a, v));
    MinusIs(a, v);
    Less(a, v);
    Bounds(a, v);
    hide WithNZ, Minus, Num;
  }

  lemma Bounds(a: bv8, v: bv8)
    ensures 0 <= Num(a) < 256 && 0 <= Num(v) < 256
    ensures (Num(a) - Num(v)) % 256 == 0 <==> Num(a) == Num(v)
  {
    ByteBound(a);
    ByteBound(v);
    ZeroDifference(Num(a), Num(v));
  }

  lemma ZeroDifference(a: int, v: int)
    requires 0 <= a < 256 && 0 <= v < 256
    ensures (a - v) % 256 == 0 <==> a == v
  {}

  /** CMP, CPX and CPY compare their register and change three flags, in both modes. */
  lemma CompareMeans(r: Regs, v: bv8)
    ensures var s := ReadEffect(CMP, r, v); s == r.(f := s.f) && ComparedAs(r.f, s.f, Num(r.a), Num(v))
    ensures var s := ReadEffect(CPX, r, v); s == r.(f := s.f) && ComparedAs(r.f, s.f, Num(r.x), Num(v))
    ensures var s := ReadEffect(CPY, r, v); s == r.(f := s.f) && ComparedAs(r.f, s.f, Num(r.y), Num(v))
  {
    CompareIs(r.f, r.a, v);
    CompareIs(r.f, r.x, v);
    CompareIs(r.f, r.y, v);
    hide Compare, ComparedAs, Num;
  }

  /** SBX subtracts from A AND X without the carry, into X, with the flags of a comparison. */
  lemma SbxMeans(r: Regs, v: bv8)
    ensures var s, m := ReadEffect(SBX, r, v), r.a & r.x;
      && s == r.(x := s.x, f := s.f) && Num(s.x) == (Num(m) - Num(v)) % 256
      && ComparedAs(r.f, s.f, Num(m), Num(v))
  {
    CompareIs(r.f, r.a & r.x, v);
    MinusIs(r.a & r.x, v);
    hide Compare, ComparedAs, Minus, Num;
  }

  // -------------------------------------------------------------------------
  // Adding and subtracting

  predicate Fits(sum: int) {
    -128 <= sum <= 127
  }

  lemma AddBinaryParts(a: bv8, v: bv8, c: bool, f: Flags)
    ensures var t := Total(a, v, Carry16(c));
      AddBinary(a, v, Carry16(c), f) ==
        Sum(Lo(t), WithNZ(f, Lo(t)).(c := NinthBit(t), v := Neg(a) == Neg(v) && Neg(Lo(t)) != Neg(a)))
  {
    hide Total, Lo, WithNZ, Neg, Num;
  }

  /** The sign rule for overflow, as a matter of numbers. */
  lemma AddOverflows(a: int, v: int, sa: int, sv: int, c: int, w: int, carry: int)
    requires 0 <= a < 256 && 0 <= v < 256 && 0 <= c <= 1 && 0 <= w < 256 && w + 256 * carry == a + v + c
    requires sa == (if a >= 128 then a - 256 else a) && sv == if v >= 128 then v - 256 else v
    ensures !Fits(sa + sv + c) <==>
      (a >= 128 <==> v >= 128) && !(w >= 128 <==> a >= 128)
  {}

  lemma AddBinaryIs(a: bv8, v: bv8, c: bool, f: Flags)
    ensures var s := AddBinary(a, v, Carry16(c), f);
      && Num(s.value) + 256 * Number(s.flags.c) == Num(a) + Num(v) + Number(c)
      && (s.flags.v <==> !Fits(Signed(a) + Signed(v) + Number(c))) && NZOf(s.flags, s.value)
      && s.flags == f.(n := s.flags.n, v := s.flags.v, z := s.flags.z, c := s.flags.c)
  {
    var t := Total(a, v, Carry16(c));
    AddBinaryParts(a, v, c, f);
    AddOverflowIs(a, v, c);
    hide AddBinary, WithNZ, Total, Lo, Neg, Carry16, NinthBit, Fits, Signed, Num;
    WithNZIs(f, Lo(t));
    TotalIs(a, v, c);
  }

  lemma AddOverflowIs(a: bv8, v: bv8, c: bool)
    ensures var w := Lo(Total(a, v, Carry16(c)));
      (Neg(a) == Neg(v) && Neg(w) != Neg(a)) <==> !Fits(Signed(a) + Signed(v) + Number(c))
  {
    var t := Total(a, v, Carry16(c));
    hide Total, Lo, Neg, Carry16, NinthBit, Num;
    TotalIs(a, v, c);
    SignIs(a);
    SignIs(v);
    SignIs(Lo(t));
    ByteRange(a);
    ByteRange(v);
    ByteRange(Lo(t));
    AddOverflows(Num(a), Num(v), Signed(a), Signed(v), Number(c), Num(Lo(t)), Number(NinthBit(t)));
    hide Fits, Signed, Num;
  }

  /** Binary addition: value and carry are the sum, V says that the signed sum does not fit. */
  lemma AdcMeans(r: Regs, v: bv8)
    requires !r.f.d
    ensures var s := ReadEffect(ADC, r, v);
      && Num(s.a) + 256 * Number(s.f.c) == Num(r.a) + Num(v) + Number(r.f.c)
      && (s.f.v <==> !Fits(Signed(r.a) + Signed(v) + Number(r.f.c))) && NZOf(s.f, s.a)
      && s == r.(a := s.a, f := r.f.(n := s.f.n, v := s.f.v, z := s.f.z, c := s.f.c))
  {
    AddBinaryIs(r.a, v, r.f.c, r.f);
    assert CarryIn(r.f) == Carry16(r.f.c);
    hide AddBinary, Carry16, CarryIn, NZOf, Num;
  }

  lemma SubBinaryParts(a: bv8, v: bv8, b: bool, f: Flags)
    ensures var w := Lo(Difference(a, v, Carry16(b)));
      SubBinary(a, v, Carry16(b), f) ==
        Sum(w, WithNZ(f, w).(c := NoBorrow(a, v, b), v := Neg(a) != Neg(v) && Neg(w) != Neg(a)))
  {
    hide Difference, Lo, WithNZ, Neg, Num;
  }

  lemma SubOverflows(a: int, v: int, sa: int, sv: int, b: int, w: int, borrow: int)
    requires 0 <= a < 256 && 0 <= v < 256 && 0 <= b <= 1 && 0 <= w < 256 && w - 256 * borrow == a - v - b
    requires sa == (if a >= 128 then a - 256 else a) && sv == if v >= 128 then v - 256 else v
    ensures !Fits(sa - sv - b) <==>
      !(a >= 128 <==> v >= 128) && !(w >= 128 <==> a >= 128)
  {}

  lemma SubBinaryIs(a: bv8, v: bv8, b: bool, f: Flags)
    ensures var s := SubBinary(a, v, Carry16(b), f);
      && Num(s.value) - 256 * Number(!s.flags.c) == Num(a) - Num(v) - Number(b)
      && (s.flags.v <==> !Fits(Signed(a) - Signed(v) - Number(b))) && NZOf(s.flags, s.value)
      && s.flags == f.(n := s.flags.n, v := s.flags.v, z := s.flags.z, c := s.flags.c)
  {
    var w := Lo(Difference(a, v, Carry16(b)));
    SubBinaryParts(a, v, b, f);
    SubOverflowIs(a, v, b);
    hide SubBinary, WithNZ, Difference, Lo, Neg, Carry16, NoBorrow, Fits, Signed, Num;
    WithNZIs(f, w);
    DifferenceIs(a, v, b);
  }

  lemma SubOverflowIs(a: bv8, v: bv8, b: bool)
    ensures var w := Lo(Difference(a, v, Carry16(b)));
      (Neg(a) != Neg(v) && Neg(w) != Neg(a)) <==> !Fits(Signed(a) - Signed(v) - Number(b))
  {
    var w := Lo(Difference(a, v, Carry16(b)));
    hide Difference, Lo, Neg, Carry16, NoBorrow, Num;
    DifferenceIs(a, v, b);
    SignIs(a);
    SignIs(v);
    SignIs(w);
    ByteRange(a);
    ByteRange(v);
    ByteRange(w);
    SubOverflows(Num(a), Num(v), Signed(a), Signed(v), Number(b), Num(w), Number(!NoBorrow(a, v, b)));
    hide Fits, Signed, Num;
  }

  lemma SubtractParts(r: Regs, v: bv8)
    ensures var d, s := SubBinary(r.a, v, Carry16(!r.f.c), r.f), ReadEffect(SBC, r, v);
      s == r.(a := s.a, f := d.flags) && (!r.f.d ==> s.a == d.value)
  {
    hide SubBinary, SubDecimal, Bit, Num;
  }

  /** Subtraction with the carry as the opposite of a borrow; in decimal mode the flags are the same. */
  lemma SbcMeans(r: Regs, v: bv8)
    ensures var s, difference := ReadEffect(SBC, r, v), Num(r.a) - Num(v) - Number(!r.f.c);
      && (s.f.c <==> difference >= 0) && (s.f.z <==> difference % 256 == 0) && (s.f.n <==> difference % 256 >= 128)
      && (s.f.v <==> !Fits(Signed(r.a) - Signed(v) - Number(!r.f.c)))
      && s == r.(a := s.a, f := r.f.(n := s.f.n, v := s.f.v, z := s.f.z, c := s.f.c))
      && (!r.f.d ==> Num(s.a) == difference % 256)
  {
    var d, difference := SubBinary(r.a, v, Carry16(!r.f.c), r.f), Num(r.a) - Num(v) - Number(!r.f.c);
    SubtractParts(r, v);
    hide ReadEffect, SubBinary, Carry16, Fits, Num;
    SubBinaryIs(r.a, v, !r.f.c, r.f);
    ByteRange(d.value);
    ByteRemainder(difference, Num(d.value), 0 - Number(!d.flags.c));
  }

  // -------------------------------------------------------------------------
  // Shifts, rotations and counts

  /** Only N, Z and C changed, N and Z to those of w. */
  predicate CarriedAs(r: Regs, s: Regs, w: bv8) {
    s == r.(f := r.f.(n := s.f.n, z := s.f.z, c := s.f.c)) && NZOf(s.f, w)
  }

  lemma ShiftedIs(r: Regs, w: bv8, carry: bool)
    ensures CarriedAs(r, ShiftedRegs(r, w, carry), w) && ShiftedRegs(r, w, carry).f.c == carry
  {
    WithNZIs(r.f, w);
    hide WithNZ, Num;
  }

  lemma ShiftParts(r: Regs, v: bv8)
    ensures ModifyEffect(ASL, r, v) == Shifted(r, LeftWith(v, false), Neg(v))
    ensures ModifyEffect(ROL, r, v) == Shifted(r, LeftWith(v, r.f.c), Neg(v))
    ensures ModifyEffect(LSR, r, v) == Shifted(r, Rotated(v, Bit(false, 0x80)), LowBit(v))
    ensures ModifyEffect(ROR, r, v) == Shifted(r, Rotated(v, Bit(r.f.c, 0x80)), LowBit(v))
    ensures ModifyEffect(DEC, r, v) == Shifted(r, Minus(v, 1), r.f.c)
    ensures ModifyEffect(INC, r, v) == Shifted(r, Plus(v, 1), r.f.c)
  {
    LeftPlain(v);
    hide Shifted, Neg;
  }

  lemma LeftPlain(v: bv8)
    ensures LeftWith(v, false) == v << 1 && Rotated(v, Bit(false, 0x80)) == v >> 1
  {}

  /**
   * The four shifts, on memory or on the accumulator: twice the shorter side and the bit that
   * falls off one end are the longer side and the bit that comes in at the other.
   */
  lemma ShiftMeans(r: Regs, v: bv8)
    ensures var m := ModifyEffect(ASL, r, v);
      Num(m.value) + 256 * Number(m.regs.f.c) == 2 * Num(v) && CarriedAs(r, m.regs, m.value)
    ensures var m := ModifyEffect(ROL, r, v);
      Num(m.value) + 256 * Number(m.regs.f.c) == 2 * Num(v) + Number(r.f.c) && CarriedAs(r, m.regs, m.value)
    ensures var m := ModifyEffect(LSR, r, v);
      2 * Num(m.value) + Number(m.regs.f.c) == Num(v) && CarriedAs(r, m.regs, m.value)
    ensures var m := ModifyEffect(ROR, r, v);
      2 * Num(m.value) + Number(m.regs.f.c) == Num(v) + 256 * Number(r.f.c) && CarriedAs(r, m.regs, m.value)
  {
    ShiftParts(r, v);
    hide ModifyEffect, ShiftedRegs, LeftWith, Rotated, Bit, Minus, Plus, Neg, LowBit, CarriedAs, Num;
    ShiftedLeft(v, false);
    ShiftedLeft(v, r.f.c);
    ShiftedRight(v, false);
    ShiftedRight(v, r.f.c);
    ShiftedIs(r, LeftWith(v, false), Neg(v));
    ShiftedIs(r, LeftWith(v, r.f.c), Neg(v));
    ShiftedIs(r, Rotated(v, Bit(false, 0x80)), LowBit(v));
    ShiftedIs(r, Rotated(v, Bit(r.f.c, 0x80)), LowBit(v));
  }

  lemma OneIs()
    ensures Num(1) == 1
  {}

  /** INC and DEC count modulo 256 and keep the carry. */
  lemma CountMeans(r: Regs, v: bv8)
    ensures var m := ModifyEffect(INC, r, v);
      Num(m.value) == (Num(v) + 1) % 256 && CarriedAs(r, m.regs, m.value) && m.regs.f.c == r.f.c
    ensures var m := ModifyEffect(DEC, r, v);
      Num(m.value) == (Num(v) - 1) % 256 && CarriedAs(r, m.regs, m.value) && m.regs.f.c == r.f.c
  {
    ShiftParts(r, v);
    hide ModifyEffect, ShiftedRegs, LeftWith, Rotated, Bit, Minus, Plus, Neg, LowBit, CarriedAs, Num;
    OneIs();
    PlusIs(v, 1);
    MinusIs(v, 1);
    ShiftedIs(r, Plus(v, 1), r.f.c);
    ShiftedIs(r, Minus(v, 1), r.f.c);
  }

  /** Only the accumulator, N, Z and C changed. */
  predicate AccuCarriedAs(r: Regs, s: Regs) {
    s == r.(a := s.a, f := r.f.(n := s.f.n, z := s.f.z, c := s.f.c)) && NZOf(s.f, s.a)
  }

  /** The same four in the accumulator. */
  lemma AccuShiftMeans(r: Regs)
    ensures var s := ImpliedEffect(AslA, r);
      Num(s.a) + 256 * Number(s.f.c) == 2 * Num(r.a) && AccuCarriedAs(r, s)
    ensures var s := ImpliedEffect(RolA, r);
      Num(s.a) + 256 * Number(s.f.c) == 2 * Num(r.a) + Number(r.f.c) && AccuCarriedAs(r, s)
    ensures var s := ImpliedEffect(LsrA, r);
      2 * Num(s.a) + Number(s.f.c) == Num(r.a) && AccuCarriedAs(r, s)
    ensures var s := ImpliedEffect(RorA, r);
      2 * Num(s.a) + Number(s.f.c) == Num(r.a) + 256 * Number(r.f.c) && AccuCarriedAs(r, s)
  {
    ShiftMeans(r, r.a);
    hide ShiftEffect, NZOf, Num;
  }

  /** Only X, or only Y, with N and Z. */
  predicate XAs(r: Regs, s: Regs) { s == r.(x := s.x, f := r.f.(n := s.f.n, z := s.f.z)) && NZOf(s.f, s.x) }

  predicate YAs(r: Regs, s: Regs) { s == r.(y := s.y, f := r.f.(n := s.f.n, z := s.f.z)) && NZOf(s.f, s.y) }

  /** Only A with N and Z. */
  predicate AccuAs(r: Regs, s: Regs) { s == r.(a := s.a, f := r.f.(n := s.f.n, z := s.f.z)) && NZOf(s.f, s.a) }

  lemma IndexCountMeans(r: Regs)
    ensures var s := ImpliedEffect(INX, r); Num(s.x) == (Num(r.x) + 1) % 256 && XAs(r, s)
    ensures var s := ImpliedEffect(DEX, r); Num(s.x) == (Num(r.x) - 1) % 256 && XAs(r, s)
    ensures var s := ImpliedEffect(INY, r); Num(s.y) == (Num(r.y) + 1) % 256 && YAs(r, s)
    ensures var s := ImpliedEffect(DEY, r); Num(s.y) == (Num(r.y) - 1) % 256 && YAs(r, s)
  {
    IndexCountParts(r);
    hide ImpliedEffect, Plus, Minus, XAs, YAs, Num;
    OneIs();
    PlusIs(r.x, 1);
    MinusIs(r.x, 1);
    PlusIs(r.y, 1);
    MinusIs(r.y, 1);
    XIs(r, Plus(r.x, 1));
    XIs(r, Minus(r.x, 1));
    YIs(r, Plus(r.y, 1));
    YIs(r, Minus(r.y, 1));
  }

  lemma IndexCountParts(r: Regs)
    ensures ImpliedEffect(INX, r) == WithX(r, Plus(r.x, 1)) && ImpliedEffect(DEX, r) == WithX(r, Minus(r.x, 1))
    ensures ImpliedEffect(INY, r) == WithY(r, Plus(r.y, 1)) && ImpliedEffect(DEY, r) == WithY(r, Minus(r.y, 1))
  {
    hide WithX, WithY, ShiftEffect;
  }

  lemma XIs(r: Regs, v: bv8)
    ensures XAs(r, WithX(r, v)) && WithX(r, v).x == v
  {
    WithNZIs(r.f, v);
    hide WithNZ, NZOf;
  }

  lemma YIs(r: Regs, v: bv8)
    ensures YAs(r, WithY(r, v)) && WithY(r, v).y == v
  {
    WithNZIs(r.f, v);
    hide WithNZ, NZOf;
  }

  lemma AIs(r: Regs, v: bv8)
    ensures AccuAs(r, WithA(r, v)) && WithA(r, v).a == v
  {
    WithNZIs(r.f, v);
    hide WithNZ, NZOf;
  }

  // -------------------------------------------------------------------------
  // The undocumented operations that do two things

  /**
   * They shift or count as ASL, ROL, LSR, ROR, DEC and INC do, and the registers are those of
   * the second operation on that result, with the carry of the first.
   */
  lemma CombinedMeans(r: Regs, v: bv8)
    ensures var m := ModifyEffect(SLO, r, v);
      m.value == ModifyEffect(ASL, r, v).value && m.regs == ReadEffect(ORA, Carrying(r, Num(v) >= 128), m.value)
    ensures var m := ModifyEffect(RLA, r, v);
      m.value == ModifyEffect(ROL, r, v).value && m.regs == ReadEffect(AND, Carrying(r, Num(v) >= 128), m.value)
    ensures var m := ModifyEffect(SRE, r, v);
      m.value == ModifyEffect(LSR, r, v).value && m.regs == ReadEffect(EOR, Carrying(r, Num(v) % 2 == 1), m.value)
    ensures var m := ModifyEffect(RRA, r, v);
      m.value == ModifyEffect(ROR, r, v).value && m.regs == ReadEffect(ADC, Carrying(r, Num(v) % 2 == 1), m.value)
    ensures var m := ModifyEffect(DCP, r, v);
      m.value == ModifyEffect(DEC, r, v).value && m.regs == ReadEffect(CMP, r, m.value)
    ensures var m := ModifyEffect(ISB, r, v);
      m.value == ModifyEffect(INC, r, v).value && m.regs == ReadEffect(SBC, r, m.value)
  {
    SignIs(v);
    Halves(v);
    hide Num;
    LeftThen(r, v);
    RightThen(r, v);
    CountThen(r, v);
    hide ModifyEffect, ReadEffect, Carrying, LowBit, Neg;
  }

  function Carrying(r: Regs, c: bool): Regs { r.(f := r.f.(c := c)) }

  lemma LeftThen(r: Regs, v: bv8)
    ensures var m := ModifyEffect(SLO, r, v);
      m.value == ModifyEffect(ASL, r, v).value && m.regs == ReadEffect(ORA, Carrying(r, Neg(v)), m.value)
    ensures var m := ModifyEffect(RLA, r, v);
      m.value == ModifyEffect(ROL, r, v).value && m.regs == ReadEffect(AND, Carrying(r, Neg(v)), m.value)
  {
    hide ReadEffect, WithNZ, Neg;
    Machine.LogicIgnoresNZ(ORA, Carrying(r, Neg(v)), ModifyEffect(ASL, r, v).value);
    Machine.LogicIgnoresNZ(AND, Carrying(r, Neg(v)), ModifyEffect(ROL, r, v).value);
    Reordered(r, ModifyEffect(ASL, r, v).value, Neg(v));
    Reordered(r, ModifyEffect(ROL, r, v).value, Neg(v));
  }

  lemma RightThen(r: Regs, v: bv8)
    ensures var m := ModifyEffect(SRE, r, v);
      m.value == ModifyEffect(LSR, r, v).value && m.regs == ReadEffect(EOR, Carrying(r, LowBit(v)), m.value)
    ensures var m := ModifyEffect(RRA, r, v);
      m.value == ModifyEffect(ROR, r, v).value && m.regs == ReadEffect(ADC, Carrying(r, LowBit(v)), m.value)
  {
    hide ReadEffect, WithNZ, Rotated;
    Machine.LogicIgnoresNZ(EOR, Carrying(r, LowBit(v)), ModifyEffect(LSR, r, v).value);
    Machine.ArithmeticIgnoresNZ(ADC, Carrying(r, LowBit(v)), ModifyEffect(ROR, r, v).value);
    Reordered(r, ModifyEffect(LSR, r, v).value, LowBit(v));
    Reordered(r, ModifyEffect(ROR, r, v).value, LowBit(v));
  }

  lemma CountThen(r: Regs, v: bv8)
    ensures var m := ModifyEffect(DCP, r, v);
      m.value == ModifyEffect(DEC, r, v).value && m.regs == ReadEffect(CMP, r, m.value)
    ensures var m := ModifyEffect(ISB, r, v);
      m.value == ModifyEffect(INC, r, v).value && m.regs == ReadEffect(SBC, r, m.value)
  {
    hide ReadEffect, WithNZ;
    Machine.ArithmeticIgnoresNZ(CMP, r, ModifyEffect(DEC, r, v).value);
    Machine.ArithmeticIgnoresNZ(SBC, r, ModifyEffect(INC, r, v).value);
    Reordered(r, ModifyEffect(DEC, r, v).value, r.f.c);
    Reordered(r, ModifyEffect(INC, r, v).value, r.f.c);
  }

  lemma Reordered(r: Regs, w: bv8, c: bool)
    ensures ShiftedRegs(r, w, c) == Carrying(r, c).(f := WithNZ(Carrying(r, c).f, w))
  {}

  // -------------------------------------------------------------------------
  // Logic

  lemma AndPart(r: Regs, v: bv8)
    ensures ReadEffect(AND, r, v) == WithA(r, Both(r.a, v))
  {
    hide WithA;
  }

  lemma OraPart(r: Regs, v: bv8)
    ensures ReadEffect(ORA, r, v) == WithA(r, Either(r.a, v))
  {
    hide WithA;
  }

  lemma EorPart(r: Regs, v: bv8)
    ensures ReadEffect(EOR, r, v) == WithA(r, OneOf(r.a, v))
  {
    hide WithA;
  }

  lemma AndParts(r: Regs, v: bv8)
    ensures ReadEffect(ANC, r, v) == WithCarry(WithA(r, Both(r.a, v)), Neg(Both(r.a, v)))
    ensures ReadEffect(LAX, r, v) == WithA(r.(x := v), v)
    ensures ReadEffect(LAS, r, v) == WithA(r.(x := Both(r.sp, v), sp := Both(r.sp, v)), Both(r.sp, v))
  {
    hide WithA, WithCarry, Neg;
  }

  /** AND, ORA and EOR work on each binary digit by itself. */
  lemma LogicMeans(r: Regs, v: bv8, k: nat)
    ensures var s := ReadEffect(AND, r, v);
      AccuAs(r, s) && (Digit(Num(s.a), k) <==> Digit(Num(r.a), k) && Digit(Num(v), k))
    ensures var s := ReadEffect(ORA, r, v);
      AccuAs(r, s) && (Digit(Num(s.a), k) <==> Digit(Num(r.a), k) || Digit(Num(v), k))
    ensures var s := ReadEffect(EOR, r, v);
      AccuAs(r, s) && (Digit(Num(s.a), k) <==> Digit(Num(r.a), k) != Digit(Num(v), k))
  {
    hide *;
    AndPart(r, v);
    OraPart(r, v);
    EorPart(r, v);
    LogicDigits(r.a, v, k);
    AIs(r, Both(r.a, v));
    AIs(r, Either(r.a, v));
    AIs(r, OneOf(r.a, v));
  }

  /** BIT: N and V are the two upper digits of the operand, Z whether it has none in common with A. */
  lemma BitMeans(r: Regs, v: bv8)
    ensures var s := ReadEffect(BIT, r, v);
      && s == r.(f := r.f.(n := s.f.n, v := s.f.v, z := s.f.z)) && (s.f.n <==> Num(v) >= 128)
      && (s.f.v <==> Num(v) / 64 % 2 == 1) && (s.f.z <==> Num(ReadEffect(AND, r, v).a) == 0)
  {
    BitParts(r, v);
    AndPart(r, v);
    hide *;
    SignIs(v);
    SixthIs(v);
    ZeroIs(Both(r.a, v));
    AIs(r, Both(r.a, v));
  }

  lemma BitParts(r: Regs, v: bv8)
    ensures ReadEffect(BIT, r, v) == r.(f := r.f.(n := Neg(v), v := v & 0x40 != 0, z := Both(r.a, v) == 0))
  {
    hide Neg;
  }

  /** The loads, and the two that load more than one register. */
  lemma LoadMeans(r: Regs, v: bv8)
    ensures var s := ReadEffect(LDA, r, v); AccuAs(r, s) && s.a == v
    ensures var s := ReadEffect(LDX, r, v); XAs(r, s) && s.x == v
    ensures var s := ReadEffect(LDY, r, v); YAs(r, s) && s.y == v
    ensures var s := ReadEffect(LAX, r, v); AccuAs(r.(x := v), s) && s.a == v
    ensures var s := ReadEffect(LAS, r, v);
      AccuAs(r.(x := s.a, sp := s.a), s) && s.a == ReadEffect(AND, r.(a := r.sp), v).a
    ensures ReadEffect(NOP, r, v) == r
  {
    AndParts(r, v);
    AndPart(r.(a := r.sp), v);
    PlainLoads(r, v);
    hide ReadEffect, Both, Either, OneOf, NZOf, WithNZ, WithX, WithY, AccuAs, XAs, YAs;
    AIs(r, v);
    XIs(r, v);
    YIs(r, v);
    AIs(r.(x := v), v);
    AIs(r.(x := Both(r.sp, v), sp := Both(r.sp, v)), Both(r.sp, v));
  }

  lemma PlainLoads(r: Regs, v: bv8)
    ensures ReadEffect(LDA, r, v) == WithA(r, v) && ReadEffect(LDX, r, v) == WithX(r, v)
    ensures ReadEffect(LDY, r, v) == WithY(r, v) && ReadEffect(NOP, r, v) == r
  {
    hide WithA, WithX, WithY;
  }

  /** A transfer copies its first letter's register to its second one's; TXS alone touches no flag. */
  lemma TransferMeans(r: Regs)
    ensures var s := ImpliedEffect(TAX, r); XAs(r, s) && s.x == r.a
    ensures var s := ImpliedEffect(TSX, r); XAs(r, s) && s.x == r.sp
    ensures var s := ImpliedEffect(TAY, r); YAs(r, s) && s.y == r.a
    ensures var s := ImpliedEffect(TXA, r); AccuAs(r, s) && s.a == r.x
    ensures var s := ImpliedEffect(TYA, r); AccuAs(r, s) && s.a == r.y
    ensures ImpliedEffect(TXS, r) == r.(sp := r.x)
  {
    hide AccuAs, XAs, YAs, WithA, WithX, WithY, ShiftEffect;
    XIs(r, r.a);
    XIs(r, r.sp);
    YIs(r, r.a);
    AIs(r, r.x);
    AIs(r, r.y);
  }

  // -------------------------------------------------------------------------
  // The undocumented operations on immediate operands

  /** ANC is AND with the carry as N; ASR is AND and LSR. */
  lemma AndCarryMeans(r: Regs, v: bv8)
    ensures var s, t := ReadEffect(ANC, r, v), ReadEffect(AND, r, v); s == t.(f := t.f.(c := Num(t.a) >= 128))
    ensures var s, t := ReadEffect(ASR, r, v), ReadEffect(AND, r, v); s == ImpliedEffect(LsrA, t)
  {
    AndPart(r, v);
    AndParts(r, v);
    AsrParts(r, v);
    SignIs(Both(r.a, v));
    hide ReadEffect, ImpliedEffect, Both, WithNZ, Neg, Num;
  }

  lemma AsrParts(r: Regs, v: bv8)
    ensures ReadEffect(ASR, r, v) == ImpliedEffect(LsrA, ReadEffect(AND, r, v))
  {
    hide Neg;
  }

  /** ANE and LXA as this emulator has them: 0xee is fixed in what they AND with. */
  lemma UnstableLoadMeans(r: Regs, v: bv8, k: nat)
    ensures var s := ReadEffect(ANE, r, v);
      AccuAs(r, s) && (Digit(Num(s.a), k) <==>
        (Digit(Num(r.a), k) || Digit(0xee, k)) && Digit(Num(r.x), k) && Digit(Num(v), k))
    ensures var s := ReadEffect(LXA, r, v);
      AccuAs(r.(x := s.a), s) && (Digit(Num(s.a), k) <==> (Digit(Num(r.a), k) || Digit(0xee, k)) && Digit(Num(v), k))
  {
    AneParts(r, v);
    LxaParts(r, v);
    hide *;
    var a := Either(r.a, 0xee);
    FixedIs();
    LogicDigits(r.a, 0xee, k);
    LogicDigits(a, r.x, k);
    LogicDigits(Both(a, r.x), v, k);
    LogicDigits(a, v, k);
    AIs(r, Both(Both(a, r.x), v));
    AIs(r.(x := Both(a, v)), Both(a, v));
  }

  lemma FixedIs()
    ensures Num(0xee) == 0xee
  {}

  lemma AneParts(r: Regs, v: bv8)
    ensures ReadEffect(ANE, r, v) == WithA(r, Both(Both(Either(r.a, 0xee), r.x), v))
  {
    hide WithA;
  }

  lemma LxaParts(r: Regs, v: bv8)
    ensures var t := Both(Either(r.a, 0xee), v); ReadEffect(LXA, r, v) == WithA(r.(x := t), t)
  {
    hide WithA;
  }

  /** CLC, CLD, CLI and CLV clear the flag of their last letter. */
  lemma ClearMeans(r: Regs)
    ensures ImpliedEffect(CLC, r) == r.(f := r.f.(c := false)) && ImpliedEffect(CLD, r) == r.(f := r.f.(d := false))
    ensures ImpliedEffect(CLI, r) == r.(f := r.f.(i := false)) && ImpliedEffect(CLV, r) == r.(f := r.f.(v := false))
  {
    hide ShiftEffect, OnAccu, WithA, WithX, WithY;
  }

  /** SEC, SED and SEI set it, and NOP does nothing. */
  lemma SetMeans(r: Regs)
    ensures ImpliedEffect(SEC, r) == r.(f := r.f.(c := true)) && ImpliedEffect(SED, r) == r.(f := r.f.(d := true))
    ensures ImpliedEffect(SEI, r) == r.(f := r.f.(i := true)) && ImpliedEffect(NOP1, r) == r
  {
    hide ShiftEffect, OnAccu, WithA, WithX, WithY;
  }
}
